/**
 Sections: a top-level value recorded as a slice of the text and parsed later, in place,
 by the component that owns it; and the token budget of the parser that records it.
 */
module Js2cSections {
  import opened Options
  import opened Jsmn
  import opened JsonDocument
  import opened JsmnRoundTrip
  import opened S = Js2cSchema
  import opened Js2cParser
  import opened Js2cConformance
  import opened Js2cEndToEnd
  import opened Js2cSlices

  // ----------------------------------------------------------------- sections

  /** The derived schema: every section becomes a slice. */
  function Sectioned(s: Schema, sections: set<string>): (r: Schema)
    requires s.Object?
    ensures r.Object?
  {
    s.(fields := SectionFields(s.fields, sections))
  }

  function SectionFields(fields: seq<Field>, sections: set<string>): (r: seq<Field>)
    ensures |r| == |fields|
    ensures forall i :: 0 <= i < |fields| ==>
              r[i] == if fields[i].name in sections then Field(fields[i].name, Raw) else fields[i]
  {
    seq(|fields|, i requires 0 <= i < |fields| =>
      if fields[i].name in sections then Field(fields[i].name, Raw) else fields[i])
  }

  lemma {:induction false} SameIndex(fields: seq<Field>, sections: set<string>, name: string)
    ensures FieldIndex(SectionFields(fields, sections), name) == FieldIndex(fields, name)
    decreases |fields|
  {
    if fields != [] {
      assert SectionFields(fields, sections)[1..] == SectionFields(fields[1..], sections);
      SameIndex(fields[1..], sections, name);
    }
  }

  /** The budget embedded in the derived schema: the accounting of the authored one with
      every section inlined. The root generator adds the derived schema's own. */
  function SectionSlots(s: Schema, sections: set<string>): nat
    requires s.Object?
  {
    Slots(Sectioned(s, sections), Some(MaxTokens(s)))
  }

  /** The derived parser's buffer holds every document the inlined schema allows for. */
  lemma SectionsFit(s: Schema, sections: set<string>, f: File)
    requires s.Object? && f.Valid() && Plain(s, f.root)
    ensures TokenCount(f.root) < SectionSlots(s, sections)
    ensures Tokenize(f.Print(), SectionSlots(s, sections)) == Tokens(TokensOf(f.root, |f.lead|))
  {
    PlainFits(s, f.root);
    RoundTrip(f, SectionSlots(s, sections));
  }

  predicate HasSections(m: Members, sections: set<string>) {
    forall name :: name in sections ==> HasKey(m, name)
  }

  /** Conforming to the authored schema, with every section present, is conforming to the
      derived one. */
  lemma SectionedConforms(env: Env, s: Schema, sections: set<string>, d: Doc)
    requires s.Object? && Conforms(env, s, d) && HasSections(d.members, sections)
    ensures Conforms(env, Sectioned(s, sections), d)
  {
    SectionedMembers(env, s, sections, d.members);
    var r := Sectioned(s, sections);
    forall i | 0 <= i < |r.fields| ensures HasKey(d.members, r.fields[i].name) || MayBeAbsent(r.fields[i], r.required) {
      assert HasKey(d.members, s.fields[i].name) || MayBeAbsent(s.fields[i], s.required);
    }
  }

  lemma {:induction false} SectionedMembers(env: Env, s: Schema, sections: set<string>, m: Members)
    requires s.Object? && MembersConform(env, s, m)
    ensures MembersConform(env, Sectioned(s, sections), m)
    decreases m
  {
    if m.Member? {
      SameIndex(s.fields, sections, m.key);
      SectionedMembers(env, s, sections, m.rest);
    }
  }

  /** What main checks before deriving: sections are properties and are required. */
  predicate Derivable(s: Schema, sections: set<string>)
    requires s.Object?
  {
    sections <= s.required && forall name :: name in sections ==> Declared(s.fields, name)
  }

  lemma SectionedGenerates(s: Schema, sections: set<string>)
    requires s.Object? && Derivable(s, sections) && Generates(s, true)
    ensures Generates(Sectioned(s, sections), true)
  {
    var r := Sectioned(s, sections);
    forall i | 0 <= i < |r.fields|
      ensures Generates(r.fields[i].schema, true)
      ensures HasDefault(r.fields[i].schema) || r.fields[i].name in r.required || !Stores(r.fields[i].schema)
    {
      assert Generates(s.fields[i].schema, true);
    }
  }

  lemma SectionIsRaw(s: Schema, sections: set<string>, name: string)
    requires s.Object? && name in sections && Declared(s.fields, name)
    ensures var r := Sectioned(s, sections);
            Declared(r.fields, name) && r.fields[FieldIndex(r.fields, name)].schema == Raw
  {
    SameIndex(s.fields, sections, name);
  }

  /** A document with no section missing is all the derived parser asks for beyond the rest
      of the authored schema. */
  lemma SectionPresent(env: Env, s: Schema, sections: set<string>, d: Doc, name: string)
    requires s.Object? && Derivable(s, sections) && name in sections && Conforms(env, Sectioned(s, sections), d)
    ensures HasKey(d.members, name)
  {
    var r := Sectioned(s, sections);
    SectionIsRaw(s, sections, name);
    assert !MayBeAbsent(r.fields[FieldIndex(r.fields, name)], r.required);
  }

  /** The derived parser, with the buffer it declares, accepts a document that conforms to
      the authored schema exactly when every section is there and its tokens fit; a section
      may not be left out even where its own schema would let it. */
  lemma SectionsAccept(env: Env, s: Schema, sections: set<string>, f: File)
    requires s.Object? && f.Valid() && Derivable(s, sections) && Generates(s, true)
    requires env.allowUnknown && Conforms(env, s, f.root)
    ensures ParseRoot(env, Sectioned(s, sections), SectionSlots(s, sections), f.Print()).Accept? <==>
            HasSections(f.root.members, sections) && TokenCount(f.root) <= SectionSlots(s, sections)
  {
    var derived := Sectioned(s, sections);
    SectionedGenerates(s, sections);
    RootDecides(env, derived, SectionSlots(s, sections), f);
    if HasSections(f.root.members, sections) {
      SectionedConforms(env, s, sections, f.root);
    }
    if Conforms(env, derived, f.root) {
      forall name | name in sections ensures HasKey(f.root.members, name) {
        SectionPresent(env, s, sections, f.root, name);
      }
    }
  }

  // ------------------------------------------------------- what is recorded

  /** The value of a section, and where its text starts in a document at `p`. */
  function SectionValue(d: Doc, name: string): Doc
    requires d.Obj? && HasKey(d.members, name)
  {
    MemberOf(d.members, name).value
  }

  function SectionStart(d: Doc, p: nat, name: string): nat
    requires d.Obj? && HasKey(d.members, name)
  {
    ValueStart(MemberOf(d.members, name), MemberStart(d.members, p + 1 + |d.pad|, name))
  }

  /** The span of a value's own token: its text, or what is between a string's quotes. */
  function SpanOf(d: Doc, p: nat): Out {
    Slice(HeadToken(d, p).start, HeadToken(d, p).end - HeadToken(d, p).start)
  }

  /** What is recorded for a raw field: the span of its value's token. */
  lemma RawRecorded(env: Env, r: Schema, m: Members, p: nat, name: string)
    requires r.Object? && MembersConform(env, r, m) && Declared(r.fields, name) && HasKey(m, name)
    requires r.fields[FieldIndex(r.fields, name)].schema == Raw
    ensures var out := DecodeFields(env, r, m, p);
            && name in out
            && out[name] == SpanOf(MemberOf(m, name).value, ValueStart(MemberOf(m, name), MemberStart(m, p, name)))
  {
    DeclaredIsName(r.fields, name);
    var v, q := MemberOf(m, name).value, ValueStart(MemberOf(m, name), MemberStart(m, p, name));
    assert StoredFor(r, m, name);
    assert DecodeField(env, r, m, p, name) == Decode(env, Raw, v, q);
  }

  /** A parser whose root is an object stores its fields. */
  lemma ObjectRoot(env: Env, t: Schema, slots: nat, f: File, r: Parsed<Out>, members: Members, q: nat)
    requires t.Object? && f.Valid() && Generates(t, env.allowUnknown)
    requires r == ParseRoot(env, t, slots, f.Print()) && r.Accept?
    requires f.root.Obj? ==> members == f.root.members && q == |f.lead| + 1 + |f.root.pad|
    ensures f.root.Obj? && Conforms(env, t, f.root) && TokenCount(f.root) <= slots
    ensures MembersConform(env, t, members) && r.out == Record(DecodeFields(env, t, members, q))
  {
    RootDecides(env, t, slots, f);
    ObjectDecodes(env, t, f.root, |f.lead|, members, q, r.out);
  }

  lemma RecordedIn(env: Env, r: Schema, m: Members, q: nat, name: string, v: Doc, p: nat, out: Out)
    requires r.Object? && MembersConform(env, r, m) && Declared(r.fields, name) && HasKey(m, name)
    requires r.fields[FieldIndex(r.fields, name)].schema == Raw && out == Record(DecodeFields(env, r, m, q))
    requires v == MemberOf(m, name).value && p == ValueStart(MemberOf(m, name), MemberStart(m, q, name))
    ensures out.Record? && name in out.fields && out.fields[name] == SpanOf(v, p)
  {
    RawRecorded(env, r, m, q, name);
  }

  /** Whatever document the derived parser accepts, with any buffer: every section is there,
      and what is stored for it is the span of its value's token. */
  lemma SectionRecorded(env: Env, s: Schema, sections: set<string>, slots: nat, f: File, r: Parsed<Out>, name: string)
    requires s.Object? && f.Valid() && Derivable(s, sections) && Generates(s, true) && env.allowUnknown
    requires name in sections
    requires r == ParseRoot(env, Sectioned(s, sections), slots, f.Print()) && r.Accept?
    ensures f.root.Obj? && HasKey(f.root.members, name) && TokenCount(f.root) <= slots
    ensures r.out.Record? && name in r.out.fields
    ensures r.out.fields[name] == SpanOf(SectionValue(f.root, name), SectionStart(f.root, |f.lead|, name))
  {
    var derived := Sectioned(s, sections);
    SectionedGenerates(s, sections);
    var members := if f.root.Obj? then f.root.members else NoMembers;
    var q := if f.root.Obj? then |f.lead| + 1 + |f.root.pad| else 0;
    ObjectRoot(env, derived, slots, f, r, members, q);
    SectionPresent(env, s, sections, f.root, name);
    SectionIsRaw(s, sections, name);
    RecordedIn(env, derived, members, q, name, SectionValue(f.root, name), SectionStart(f.root, |f.lead|, name), r.out);
  }

  lemma {:induction false} MemberInside(m: Members, q: nat, name: string)
    requires HasKey(m, name)
    ensures PartOfMembers(MemberOf(m, name).value, ValueStart(MemberOf(m, name), MemberStart(m, q, name)), m, q)
    decreases m
  {
    if m.key == name {
      assert PartOf(m.value, ValueStart(m, q), m.value, ValueStart(m, q));
    } else {
      MemberInside(m.rest, NextMember(m, q), name);
    }
  }

  lemma SectionIsPart(f: File, name: string)
    requires f.root.Obj? && HasKey(f.root.members, name)
    ensures PartOf(SectionValue(f.root, name), SectionStart(f.root, |f.lead|, name), f.root, |f.lead|)
  {
    MemberInside(f.root.members, |f.lead| + 1 + |f.root.pad|, name);
  }

  // ------------------------------------------------------- in place and alone

  /** Two parses of one value, at token `at` of a document where its text starts at `p`, and
      alone: the same verdict, and the same stored values but for the slices' positions. */
  ghost predicate SameParse(own: Schema, inPlace: Parsed<Out>, alone: Parsed<Out>, at: nat, p: nat) {
    if alone.Accept?
    then
      && inPlace.Accept? && inPlace.cur == at + alone.cur
      && (FixedDefaults(own) ==> inPlace.out == ShiftOut(alone.out, p))
    else inPlace.Reject? && alone.Reject?
  }

  lemma VerdictsAgree(owner: Env, own: Schema, v: Doc, p: nat, at: nat, inPlace: Parsed<Out>, alone: Parsed<Out>)
    requires Verdict(owner, own, v, p, at, inPlace) && Verdict(owner, own, v, 0, 0, alone)
    ensures SameParse(own, inPlace, alone, at, p)
  {
    if Conforms(owner, own, v) && FixedDefaults(own) {
      DecodeShift(owner, own, v, 0, p);
    }
  }

  lemma ParsedInPlace(owner: Env, own: Schema, f: File, v: Doc, p: nat) returns (at: nat)
    requires f.Valid() && PartOf(v, p, f.root, |f.lead|) && Generates(own, owner.allowUnknown)
    ensures var ts := TokensOf(f.root, |f.lead|);
            && at < |ts| && ts[at] == HeadToken(v, p)
            && Verdict(owner, own, v, p, at, ParseValue(owner, f.Print(), ts, own, at))
  {
    var js, ts := f.Print(), TokensOf(f.root, |f.lead|);
    PartStands(f, v, p);
    at := PartOfTokens(ts, 0, v, p, f.root, |f.lead|);
    SegmentSlice(ts, at, TokensOf(v, p));
    TextStands(js, ts, at, p, v);
    ParserDecides(owner, js, ts, own, at, v, p);
  }

  lemma ParsedAlone(owner: Env, own: Schema, slots: nat, v: Doc)
    requires WellFormed(v) && Bracketed(v) && Generates(own, owner.allowUnknown)
    ensures var alone := ParseRoot(owner, own, slots, Text(v));
            if TokenCount(v) <= slots then Verdict(owner, own, v, 0, 0, alone) else alone.Reject?
  {
    var f := File("", v, "");
    assert f.Print() == Text(v);
    RootDecides(owner, own, slots, f);
  }

  /** The stretch a token spans: a value's text, or a string's without its quotes. */
  function Inside(d: Doc): string {
    if d.Str? then d.body else Text(d)
  }

  lemma InsideStands(js: string, d: Doc, p: nat)
    requires At(js, p, Text(d))
    ensures var t := HeadToken(d, p); 0 <= t.start <= t.end <= |js| && js[t.start..t.end] == Inside(d)
  {
    if d.Str? {
      AtQuoted(js, p, d.body);
      AtSlice(js, p + 1, d.body);
    } else {
      LenIsLength(d);
      AtSlice(js, p, Text(d));
    }
  }

  lemma PartInside(f: File, d: Doc, p: nat)
    requires f.Valid() && PartOf(d, p, f.root, |f.lead|)
    ensures WellFormed(d)
    ensures var t := HeadToken(d, p);
            0 <= t.start <= t.end <= |f.Print()| && f.Print()[t.start..t.end] == Inside(d)
  {
    PartStands(f, d, p);
    InsideStands(f.Print(), d, p);
  }

  /** A number or literal alone ends with the text, which the tokenizer takes for a piece
      of one. */
  lemma {:induction false} ScalarAloneFails(text: string, i: nat)
    requires PrimitiveBody(text) && i <= |text|
    ensures ScanPrimitive(text, i) == Bad(Part)
    ensures i == 0 ==> forall slots :: Tokenize(text, slots).Failed?
    decreases |text| - i
  {
    if i < |text| {
      ScalarAloneFails(text, i + 1);
    }
  }

  /** A section that is no array or object, for an owner that wants one: never accepted in
      its place, and alone only when it is a string. */
  lemma ScalarSection(owner: Env, own: Schema, slots: nat, js: string, ts: seq<Token>, v: Doc, p: nat, at: nat)
    requires WellFormed(v) && !Bracketed(v) && (own.Object? || own.Array?) && at < |ts| && ts[at] == HeadToken(v, p)
    ensures ParseValue(owner, js, ts, own, at).Reject?
    ensures v.Prim? ==> ParseRoot(owner, own, slots, Inside(v)).Reject?
    ensures !ParseRoot(owner, own, slots, Inside(v)).Overrun?
  {
    NeverOverruns(owner, own, slots, Inside(v));
    if v.Prim? {
      ScalarAloneFails(v.text, 0);
    }
  }

  /** A string that holds a document, alone: what its owner makes of that document. */
  lemma StringHolds(owner: Env, own: Schema, slots: nat, g: File) returns (v: Doc)
    requires g.Valid() && StringBody(g.Print()) && Generates(own, owner.allowUnknown) && (own.Object? || own.Array?)
    ensures v == Str(g.Print()) && WellFormed(v) && !Conforms(owner, own, v)
    ensures ParseRoot(owner, own, slots, Inside(v)).Accept? <==>
            TokenCount(g.root) <= slots && Conforms(owner, own, g.root)
  {
    v := Str(g.Print());
    RootDecides(owner, own, slots, g);
  }

  lemma EmptyObjectConforms(owner: Env, own: Schema, d: Doc)
    requires own == Schema.Object([], {}, false, None) && d == Obj("", NoMembers)
    ensures Generates(own, owner.allowUnknown) && Conforms(owner, own, d) && WellFormed(d) && TokenCount(d) == 1
    ensures Text(d) == "{}"
  {
    assert MembersConform(owner, own, NoMembers) && NoneMissing(own, NoMembers);
  }

  lemma BracesAreBody(body: string)
    requires body == "{}"
    ensures StringBody(body)
  {
    assert StringBodyFrom(body, 2) && StringBodyFrom(body, 1);
  }

  /** There are such strings: one that holds an empty object. */
  lemma StringSection(owner: Env, own: Schema) returns (v: Doc)
    requires own == Schema.Object([], {}, false, None)
    ensures v.Str? && ParseRoot(owner, own, 1, Inside(v)).Accept? && !Conforms(owner, own, v)
    ensures WellFormed(v) && Generates(own, owner.allowUnknown) && v == Str("{}")
  {
    var d := Obj("", NoMembers);
    EmptyObjectConforms(owner, own, d);
    var g := File("", d, "");
    assert g.Print() == Text(d);
    BracesAreBody(Text(d));
    v := StringHolds(owner, own, 1, g);
  }

  /** `o` is a slice of the text, and this is what stands there. */
  predicate Recorded(js: string, o: Out, text: string) {
    && o.Slice? && 0 <= o.index && 0 <= o.length && o.index + o.length <= |js|
    && js[o.index..o.index + o.length] == text
  }

  /** The owner's parser on a section's value `v`: on its own text `text`, with `slots` tokens,
      and in the whole text, where `v` starts at `p` and its first token is number `at`. */
  ghost predicate Composes(
    owner: Env, own: Schema, slots: nat, js: string, ts: seq<Token>, v: Doc, p: nat, at: nat, text: string)
  {
    var inPlace, alone := ParseValue(owner, js, ts, own, at), ParseRoot(owner, own, slots, text);
    && at < |ts| && ts[at] == HeadToken(v, p)
    && (Bracketed(v) && TokenCount(v) <= slots ==> SameParse(own, inPlace, alone, at, p))
    && (Bracketed(v) && TokenCount(v) > slots ==> alone.Reject?)
    && (!Bracketed(v) && (own.Object? || own.Array?) ==> inPlace.Reject? && (v.Prim? ==> alone.Reject?))
    && (own.Object? || own.Array? ==>
          (Bracketed(v) ==> TokenCount(v) <= slots) ==>
            (SameParse(own, inPlace, alone, at, p) <==> !(v.Str? && alone.Accept?)))
  }

  lemma SectionParses(owner: Env, own: Schema, slots: nat, f: File, v: Doc, p: nat) returns (at: nat)
    requires f.Valid() && PartOf(v, p, f.root, |f.lead|) && Generates(own, owner.allowUnknown)
    ensures Composes(owner, own, slots, f.Print(), TokensOf(f.root, |f.lead|), v, p, at, Inside(v))
  {
    var js, ts := f.Print(), TokensOf(f.root, |f.lead|);
    PartStands(f, v, p);
    at := ParsedInPlace(owner, own, f, v, p);
    if Bracketed(v) {
      ParsedAlone(owner, own, slots, v);
      if TokenCount(v) <= slots {
        VerdictsAgree(owner, own, v, p, at, ParseValue(owner, js, ts, own, at),
                      ParseRoot(owner, own, slots, Text(v)));
      }
    } else if own.Object? || own.Array? {
      ScalarSection(owner, own, slots, js, ts, v, p, at);
    }
  }

  /** Sections compose. Whenever the derived parser accepts a document, it has recorded for
      each section the stretch of the text its token spans, and the owner's parser on that
      stretch gives what it would give at the section's token in the whole document: the same
      verdict, as many tokens, and the same values, any slices counted from the stretch. It
      takes a buffer that holds the section, and a section that is an array or an object. */
  lemma SectionsCompose(
    env: Env, s: Schema, sections: set<string>, slots: nat, f: File, r: Parsed<Out>, name: string, owner: Env,
    ownSlots: nat)
    returns (v: Doc, p: nat, at: nat)
    requires s.Object? && f.Valid() && Derivable(s, sections) && Generates(s, true) && env.allowUnknown
    requires name in sections
    requires r == ParseRoot(env, Sectioned(s, sections), slots, f.Print()) && r.Accept?
    requires Generates(s.fields[FieldIndex(s.fields, name)].schema, owner.allowUnknown)
    ensures f.root.Obj? && HasKey(f.root.members, name) && v == SectionValue(f.root, name)
    ensures p == SectionStart(f.root, |f.lead|, name)
    ensures r.out.Record? && name in r.out.fields && r.out.fields[name] == SpanOf(v, p)
    ensures Recorded(f.Print(), r.out.fields[name], Inside(v))
    ensures Tokenize(f.Print(), slots) == Tokens(TokensOf(f.root, |f.lead|))
    ensures Composes(owner, s.fields[FieldIndex(s.fields, name)].schema, ownSlots,
                     f.Print(), TokensOf(f.root, |f.lead|), v, p, at, Inside(v))
  {
    SectionRecorded(env, s, sections, slots, f, r, name);
    v, p := SectionValue(f.root, name), SectionStart(f.root, |f.lead|, name);
    SectionIsPart(f, name);
    PartInside(f, v, p);
    RoundTrip(f, slots);
    at := SectionParses(owner, s.fields[FieldIndex(s.fields, name)].schema, ownSlots, f, v, p);
  }
}
