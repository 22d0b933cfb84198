/**
 The emitted parser, as an interpreter of the schema over a token array. A leaf parser
 is a function of the token's kind and text; everything around the leaves is what the
 generators print.
 */
module Js2cParser {
  import opened Options
  import opened Jsmn
  import opened JsmnForest
  import opened Js2cRuntime
  import opened S = Js2cSchema

  /** The leaf parsers (by number, whether the token is a string, and its text) and the
      global setting that makes every object accept unknown keys. */
  datatype Env = Env(leaf: (nat, bool, string) -> Option<int>, allowUnknown: bool)

  /** `Accept` leaves the cursor after the value; `Overrun` would be a read past the tokens. */
  datatype Parsed<T> = Accept(cur: nat, out: T) | Reject | Overrun

  function ParseValue(env: Env, js: string, ts: seq<Token>, s: Schema, cur: nat): Parsed<Out>
    decreases s, 3, 0
  {
    match s
    case Leaf(parser, stores, _) => ParseLeaf(env, js, ts, parser, stores, cur)
    case Raw => ParseRaw(ts, cur)
    case Void => SkipVoid(ts, cur)
    case Array(_, _, _, _) => ParseArray(env, js, ts, s, cur)
    case Object(_, _, _, _) => ParseObject(env, js, ts, s, cur)
    case Union(_) => TryOptions(env, js, ts, s, 0, cur)
  }

  /** A raw value: where it stands in the text. */
  function ParseRaw(ts: seq<Token>, cur: nat): Parsed<Out> {
    if cur >= |ts| then Overrun
    else
      match Skip(ts, cur, 1)
      case None => Overrun
      case Some(next) => Accept(next, Slice(ts[cur].start, ts[cur].end - ts[cur].start))
  }

  function SkipVoid(ts: seq<Token>, cur: nat): Parsed<Out> {
    match Skip(ts, cur, 1)
    case None => Overrun
    case Some(next) => Accept(next, Nothing)
  }

  function ParseArray(env: Env, js: string, ts: seq<Token>, s: Schema, cur: nat): Parsed<Out>
    requires s.Array?
    decreases s, 2, 0
  {
    if cur >= |ts| then Overrun
    else if ts[cur].kind != Kind.Array || ts[cur].size > s.maxItems || ts[cur].size < s.minItems then Reject
    else
      match ParseItems(env, js, ts, s.item, cur + 1, ts[cur].size)
      case Accept(next, outs) => Accept(next, List(outs))
      case Reject => Reject
      case Overrun => Overrun
  }

  function ParseObject(env: Env, js: string, ts: seq<Token>, s: Schema, cur: nat): Parsed<Out>
    requires s.Object?
    decreases s, 2, 0
  {
    if cur >= |ts| then Overrun
    else if ts[cur].kind != Kind.Object then Reject
    else FinishObject(s, ParseMembers(env, js, ts, s, cur + 1, ts[cur].size, Fields({}, map[])))
  }

  function ParseLeaf(env: Env, js: string, ts: seq<Token>, parser: nat, stores: bool, cur: nat): Parsed<Out> {
    if cur >= |ts| then Overrun
    else if ts[cur].Container() then Reject
    else
      match env.leaf(parser, ts[cur].kind == String, TokenText(js, ts[cur]))
      case None => Reject
      case Some(v) => Accept(cur + 1, if stores then Value(v) else Nothing)
  }

  /** The item loop: `n` more items. */
  function ParseItems(env: Env, js: string, ts: seq<Token>, item: Schema, cur: nat, n: nat): Parsed<seq<Out>>
    decreases item, 4, n
  {
    if n == 0 then Accept(cur, [])
    else
      match ParseValue(env, js, ts, item, cur)
      case Reject => Reject
      case Overrun => Overrun
      case Accept(next, out) =>
        match ParseItems(env, js, ts, item, next, n - 1)
        case Reject => Reject
        case Overrun => Overrun
        case Accept(end, outs) => Accept(end, [out] + outs)
  }

  /** The declared field the current token names, or the number of fields. */
  function FieldAt(js: string, t: Token, fields: seq<Field>): (i: nat)
    ensures i <= |fields|
  {
    if t.kind == String then FieldIndex(fields, TokenText(js, t)) else |fields|
  }

  /** The seen flags, and the fields stored so far. */
  datatype Fields = Fields(seen: set<string>, out: map<string, Out>)

  /** One turn of the member loop: a key token and its value. */
  function ParseMember(env: Env, js: string, ts: seq<Token>, s: Schema, cur: nat, so: Fields): Parsed<Fields>
    requires s.Object?
    decreases s, 0, 0
  {
    if cur >= |ts| then Overrun
    else if ts[cur].size != 1 then Reject
    else
      var i := FieldAt(js, ts[cur], s.fields);
      if i < |s.fields| then
        var f := s.fields[i];
        if f.name in so.seen then Reject
        else
          match ParseValue(env, js, ts, f.schema, cur + 1)
          case Reject => Reject
          case Overrun => Overrun
          case Accept(next, v) => Accept(next, Store(so, f, v))
      else if env.allowUnknown then
        match Skip(ts, cur + 1, 1)
        case None => Overrun
        case Some(next) => Accept(next, so)
      else Reject
  }

  function Store(so: Fields, f: Field, v: Out): Fields {
    Fields(so.seen + {f.name}, if Stores(f.schema) then so.out[f.name := v] else so.out)
  }

  /** The member loop: `n` more keys. */
  function ParseMembers(env: Env, js: string, ts: seq<Token>, s: Schema, cur: nat, n: nat, so: Fields): Parsed<Fields>
    requires s.Object?
    decreases s, 1, n
  {
    if n == 0 then Accept(cur, so)
    else
      match ParseMember(env, js, ts, s, cur, so)
      case Reject => Reject
      case Overrun => Overrun
      case Accept(next, so2) => ParseMembers(env, js, ts, s, next, n - 1, so2)
  }

  /** After the loop: the required checks, then the defaults. */
  function FinishObject(s: Schema, r: Parsed<Fields>): Parsed<Out>
    requires s.Object?
  {
    match r
    case Accept(next, so) =>
      if MissingRequired(s, so.seen) then Reject else Accept(next, Record(SetDefaults(s, so)))
    case Reject => Reject
    case Overrun => Overrun
  }

  predicate MissingRequired(s: Schema, seen: set<string>)
    requires s.Object?
  {
    exists i :: 0 <= i < |s.fields| && !MayBeAbsent(s.fields[i], s.required) && s.fields[i].name !in seen
  }

  function SetDefaults(s: Schema, so: Fields): map<string, Out>
    requires s.Object?
  {
    so.out
    + map name | name in FieldNames(s.fields) && name !in so.seen
               && HasDefault(s.fields[FieldIndex(s.fields, name)].schema) ::
      DefaultOf(s.fields[FieldIndex(s.fields, name)].schema)
  }

  /** The options in order, each from the same cursor. */
  function TryOptions(env: Env, js: string, ts: seq<Token>, s: Schema, k: nat, cur: nat): Parsed<Out>
    requires s.Union? && k <= |s.options|
    decreases s, 2, |s.options| - k
  {
    if k == |s.options| then Reject
    else
      match ParseValue(env, js, ts, s.options[k], cur)
      case Accept(next, out) => Accept(next, Choice(k, out))
      case Reject => TryOptions(env, js, ts, s, k + 1, cur)
      case Overrun => Overrun
  }

  // --------------------------------------------------------- the root parser

  /** The whole generated parser: tokenize into `slots` tokens, then parse token 0. */
  function ParseRoot(env: Env, s: Schema, slots: nat, js: string): Parsed<Out> {
    match Tokenize(js, slots)
    case Failed(_, _) => Reject
    case Tokens(ts) => if ts == [] then Reject else ParseValue(env, js, ts, s, 0)
  }

  // ------------------------------------------------ no read past the tokens

  /** What is left of a forest after parsing: at least `left` trees. */
  predicate Leaves<T>(ts: seq<Token>, r: Parsed<T>, h: seq<Tree>, left: int) {
    match r
    case Accept(next, _) => Rest(ts, next, h) && |h| >= left
    case Reject => true
    case Overrun => false
  }

  /** Parsing one value of a forest uses up at most one of its trees' worth of tokens. */
  lemma {:induction false} ValueWithin(env: Env, js: string, ts: seq<Token>, s: Schema, cur: nat, g: seq<Tree>)
    returns (h: seq<Tree>)
    requires Rest(ts, cur, g) && g != []
    ensures Leaves(ts, ParseValue(env, js, ts, s, cur), h, |g| - 1)
    decreases s, 3, 0
  {
    RestNext(ts, cur, g);
    h := g[0].kids + g[1..];
    match s
    case Leaf(_, _, _) =>
    case Raw => h := SkipWithin(ts, cur, g);
    case Void => h := SkipWithin(ts, cur, g);
    case Array(item, _, _, _) => h := ItemsWithin(env, js, ts, item, cur + 1, ts[cur].size, h);
    case Object(_, _, _, _) => h := MembersWithin(env, js, ts, s, cur + 1, ts[cur].size, Fields({}, map[]), h);
    case Union(_) => h := OptionsWithin(env, js, ts, s, 0, cur, g);
  }

  lemma SkipWithin(ts: seq<Token>, cur: nat, g: seq<Tree>) returns (h: seq<Tree>)
    requires Rest(ts, cur, g) && g != []
    ensures Skip(ts, cur, 1).Some? && Rest(ts, Skip(ts, cur, 1).value, h) && h == g[1..]
  {
    SkipTrees(ts, cur, g, 1);
    h := g[1..];
  }

  lemma {:induction false} ItemsWithin(
    env: Env, js: string, ts: seq<Token>, item: Schema, cur: nat, n: nat, g: seq<Tree>)
    returns (h: seq<Tree>)
    requires Rest(ts, cur, g) && n <= |g|
    ensures Leaves(ts, ParseItems(env, js, ts, item, cur, n), h, |g| - n)
    decreases item, 4, n
  {
    h := g;
    if n > 0 {
      h := ValueWithin(env, js, ts, item, cur, g);
      var r := ParseValue(env, js, ts, item, cur);
      if r.Accept? {
        h := ItemsWithin(env, js, ts, item, r.cur, n - 1, h);
      }
    }
  }

  lemma {:induction false} MemberWithin(
    env: Env, js: string, ts: seq<Token>, s: Schema, cur: nat, so: Fields, g: seq<Tree>)
    returns (h: seq<Tree>)
    requires s.Object? && Rest(ts, cur, g) && g != []
    ensures Leaves(ts, ParseMember(env, js, ts, s, cur, so), h, |g| - 1)
    decreases s, 1, 0
  {
    RestNext(ts, cur, g);
    h := g[0].kids + g[1..];
    if ts[cur].size == 1 {
      var i := FieldAt(js, ts[cur], s.fields);
      if i < |s.fields| {
        h := ValueWithin(env, js, ts, s.fields[i].schema, cur + 1, h);
      } else {
        h := SkipWithin(ts, cur + 1, h);
      }
    }
  }

  lemma {:induction false} MembersWithin(
    env: Env, js: string, ts: seq<Token>, s: Schema, cur: nat, n: nat, so: Fields, g: seq<Tree>)
    returns (h: seq<Tree>)
    requires s.Object? && Rest(ts, cur, g) && n <= |g|
    ensures Leaves(ts, ParseMembers(env, js, ts, s, cur, n, so), h, |g| - n)
    decreases s, 2, n
  {
    h := g;
    if n > 0 {
      h := MemberWithin(env, js, ts, s, cur, so, g);
      var r := ParseMember(env, js, ts, s, cur, so);
      if r.Accept? {
        h := MembersWithin(env, js, ts, s, r.cur, n - 1, r.out, h);
      }
    }
  }

  lemma {:induction false} OptionsWithin(
    env: Env, js: string, ts: seq<Token>, s: Schema, k: nat, cur: nat, g: seq<Tree>)
    returns (h: seq<Tree>)
    requires s.Union? && k <= |s.options| && Rest(ts, cur, g) && g != []
    ensures Leaves(ts, TryOptions(env, js, ts, s, k, cur), h, |g| - 1)
    decreases s, 2, |s.options| - k
  {
    h := g;
    if k < |s.options| {
      h := ValueWithin(env, js, ts, s.options[k], cur, g);
      if ParseValue(env, js, ts, s.options[k], cur).Reject? {
        h := OptionsWithin(env, js, ts, s, k + 1, cur, g);
      }
    }
  }

  /** For every schema and every text, well-formed or not, a generated parser never reads
      past the tokens of the text. */
  lemma NeverOverruns(env: Env, s: Schema, slots: nat, js: string)
    ensures !ParseRoot(env, s, slots, js).Overrun?
  {
    var r := Tokenize(js, slots);
    if r.Tokens? && r.toks != [] {
      var f := AcceptedIsForest(js, slots);
      assert r.toks[0..] == r.toks;
      var h := ValueWithin(env, js, r.toks, s, 0, f);
    }
  }
}
