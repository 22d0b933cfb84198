/**
 The emitted parser in its own form: methods that advance the shared cursor, loops over
 items and members with seen flags, options tried on a copy of the cursor. Each is tied
 to the interpreter of module Js2cParser.
 */
module Js2cEmitted {
  import opened Jsmn
  import JsmnParser
  import opened Js2cRuntime
  import opened S = Js2cSchema
  import opened Js2cParser

  /** The items still to come, after those already stored. */
  function After(items: seq<Out>, r: Parsed<seq<Out>>): Parsed<seq<Out>> {
    match r
    case Accept(next, outs) => Accept(next, items + outs)
    case Reject => Reject
    case Overrun => Overrun
  }

  lemma AfterNone(r: Parsed<seq<Out>>)
    ensures After([], r) == r
  {
    if r.Accept? {
      assert [] + r.out == r.out;
    }
  }

  lemma AfterOne(items: seq<Out>, item: Out, r: Parsed<seq<Out>>)
    ensures After(items + [item], r) == After(items, After([item], r))
  {
    if r.Accept? {
      assert (items + [item]) + r.out == items + ([item] + r.out);
    }
  }

  class Generated {
    const env: Env
    const state: ParseState

    constructor (env: Env, state: ParseState)
      ensures this.env == env && this.state == state
    {
      this.env, this.state := env, state;
    }

    /** A call agrees with the interpreter: an error on Reject, the cursor and the stored
        value on Accept. */
    ghost predicate Agrees<T>(r: Parsed<T>, err: bool, out: T)
      reads state
    {
      match r
      case Accept(next, v) => !err && state.current == next && out == v
      case Reject => err
      case Overrun => false
    }

    method Parse(s: Schema) returns (err: bool, out: Out)
      requires state.Valid()
      requires !ParseValue(env, state.json, state.tokens, s, state.current).Overrun?
      modifies state`current
      ensures Agrees(ParseValue(env, state.json, state.tokens, s, old(state.current)), err, out)
      decreases s, 3, 0
    {
      out := Nothing;
      match s
      case Leaf(parser, stores, _) => err, out := ParseOneToken(parser, stores);
      case Raw =>
        var t := state.tokens[state.current];
        out := Slice(t.start, t.end - t.start);
        err := state.SkipValue();
      case Void => err := state.SkipValue();
      case Array(_, _, _, _) => err, out := ParseArrayValue(s);
      case Object(_, _, _, _) => err, out := ParseObjectValue(s);
      case Union(_) => err, out := ParseUnion(s);
    }

    method ParseOneToken(parser: nat, stores: bool) returns (err: bool, out: Out)
      requires state.current < |state.tokens|
      modifies state`current
      ensures Agrees(ParseLeaf(env, state.json, state.tokens, parser, stores, old(state.current)), err, out)
    {
      out := Nothing;
      var t := state.tokens[state.current];
      if t.Container() {
        return true, Nothing;
      }
      var v := env.leaf(parser, t.kind == String, TokenText(state.json, t));
      if v.None? {
        return true, Nothing;
      }
      if stores {
        out := Value(v.value);
      }
      state.current := state.current + 1;
      err := false;
    }

    method ParseArrayValue(s: Schema) returns (err: bool, out: Out)
      requires s.Array? && state.Valid()
      requires !ParseArray(env, state.json, state.tokens, s, state.current).Overrun?
      modifies state`current
      ensures Agrees(ParseArray(env, state.json, state.tokens, s, old(state.current)), err, out)
      decreases s, 2, 0
    {
      var t := state.tokens[state.current];
      if t.kind != Kind.Array {
        return true, Nothing;
      }
      var n := t.size;
      if n > s.maxItems {
        return true, Nothing;
      }
      if n < s.minItems {
        return true, Nothing;
      }
      state.current := state.current + 1;
      ghost var all := ParseItems(env, state.json, state.tokens, s.item, state.current, n);
      var items: seq<Out> := [];
      var i := 0;
      AfterNone(all);
      while i < n
        invariant 0 <= i <= n
        invariant all == After(items, ParseItems(env, state.json, state.tokens, s.item, state.current, n - i))
      {
        ghost var before := items;
        var bad, item := Parse(s.item);
        if bad {
          return true, Nothing;
        }
        items := items + [item];
        i := i + 1;
        AfterOne(before, item, ParseItems(env, state.json, state.tokens, s.item, state.current, n - i));
      }
      assert items + [] == items;
      return false, List(items);
    }

    /** The body of the member loop: the key checks, the chain of field names, and the
        unknown-key branch. */
    method ParseField(s: Schema, seen: set<string>, stored: map<string, Out>)
      returns (err: bool, seen': set<string>, stored': map<string, Out>)
      requires s.Object? && state.Valid()
      requires !ParseMember(env, state.json, state.tokens, s, state.current, Fields(seen, stored)).Overrun?
      modifies state`current
      ensures Agrees(ParseMember(env, state.json, state.tokens, s, old(state.current), Fields(seen, stored)),
                     err, Fields(seen', stored'))
      decreases s, 1, 0
    {
      err, seen', stored' := false, seen, stored;
      var t := state.tokens[state.current];
      if t.size > 1 {
        err := true;
        return;
      }
      if t.size < 1 {
        err := true;
        return;
      }
      var i := 0;
      while i < |s.fields| && !TokenIs(state.json, t, s.fields[i].name)
        invariant 0 <= i <= |s.fields|
        invariant forall j :: 0 <= j < i ==> !TokenIs(state.json, t, s.fields[j].name)
      {
        i := i + 1;
      }
      assert FieldAt(state.json, t, s.fields) == i;
      if i < |s.fields| {
        if s.fields[i].name in seen {
          err := true;
          return;
        }
        seen' := seen + {s.fields[i].name};
        state.current := state.current + 1;
        var v;
        err, v := Parse(s.fields[i].schema);
        if !err && Stores(s.fields[i].schema) {
          stored' := stored[s.fields[i].name := v];
        }
      } else if env.allowUnknown {
        state.current := state.current + 1;
        err := state.SkipValue();
      } else {
        err := true;
      }
    }

    /** The member loop, with its seen flags. */
    method ParseFields(s: Schema, n: nat) returns (err: bool, seen: set<string>, stored: map<string, Out>)
      requires s.Object? && state.Valid()
      requires !ParseMembers(env, state.json, state.tokens, s, state.current, n, Fields({}, map[])).Overrun?
      modifies state`current
      ensures Agrees(ParseMembers(env, state.json, state.tokens, s, old(state.current), n, Fields({}, map[])),
                     err, Fields(seen, stored))
      decreases s, 1, 1
    {
      err, seen, stored := false, {}, map[];
      ghost var all := ParseMembers(env, state.json, state.tokens, s, state.current, n, Fields({}, map[]));
      var i := 0;
      while i < n && !err
        invariant 0 <= i <= n
        invariant !err ==>
                    all == ParseMembers(env, state.json, state.tokens, s, state.current, n - i, Fields(seen, stored))
        invariant err ==> all.Reject?
      {
        err, seen, stored := ParseField(s, seen, stored);
        i := i + 1;
      }
    }

    method ParseObjectValue(s: Schema) returns (err: bool, out: Out)
      requires s.Object? && state.Valid()
      requires !ParseObject(env, state.json, state.tokens, s, state.current).Overrun?
      modifies state`current
      ensures Agrees(ParseObject(env, state.json, state.tokens, s, old(state.current)), err, out)
      decreases s, 2, 0
    {
      out := Nothing;
      var t := state.tokens[state.current];
      if t.kind != Kind.Object {
        return true, out;
      }
      state.current := state.current + 1;
      var seen: set<string>, stored: map<string, Out>;
      err, seen, stored := ParseFields(s, t.size);
      if err {
        return true, out;
      }
      var missing := RequiredCheck(s, seen);
      if missing {
        return true, out;
      }
      out := Record(SetDefaults(s, Fields(seen, stored)));
    }

    method RequiredCheck(s: Schema, seen: set<string>) returns (missing: bool)
      requires s.Object?
      ensures missing <==> MissingRequired(s, seen)
    {
      var i := 0;
      while i < |s.fields|
        invariant 0 <= i <= |s.fields|
        invariant forall j :: 0 <= j < i ==> MayBeAbsent(s.fields[j], s.required) || s.fields[j].name in seen
      {
        if !MayBeAbsent(s.fields[i], s.required) && s.fields[i].name !in seen {
          return true;
        }
        i := i + 1;
      }
      return false;
    }

    /** Each option starts from the cursor the union started from; only a success moves it. */
    method ParseUnion(s: Schema) returns (err: bool, out: Out)
      requires s.Union? && state.Valid()
      requires !TryOptions(env, state.json, state.tokens, s, 0, state.current).Overrun?
      modifies state`current
      ensures Agrees(TryOptions(env, state.json, state.tokens, s, 0, old(state.current)), err, out)
      decreases s, 2, 0
    {
      var start := state.current;
      var k := 0;
      while k < |s.options|
        invariant 0 <= k <= |s.options| && state.current == start == old(state.current)
        invariant TryOptions(env, state.json, state.tokens, s, 0, start) ==
                  TryOptions(env, state.json, state.tokens, s, k, start)
      {
        var bad, v := Parse(s.options[k]);
        if !bad {
          return false, Choice(k, v);
        }
        state.current := start;
        k := k + 1;
      }
      return true, Nothing;
    }
  }

  /** The root: tokenize into a buffer of its own, refuse what the tokenizer refuses and a
      text without tokens, parse from the first token. */
  method ParseWithLen(env: Env, s: Schema, slots: nat, json: string) returns (err: bool, out: Out)
    requires slots < 0x1_0000_0000
    ensures err <==> ParseRoot(env, s, slots, json).Reject?
    ensures !err ==> ParseRoot(env, s, slots, json).Accept? && out == ParseRoot(env, s, slots, json).out
  {
    NeverOverruns(env, s, slots, json);
    out := Nothing;
    var buffer := new Token[slots];
    var parser := new JsmnParser.Parser(buffer);
    var r, count := parser.Parse(json);
    if count < 0 {
      return true, out;
    }
    if count == 0 {
      return true, out;
    }
    var state := new ParseState(json, buffer[..count], slots);
    var generated := new Generated(env, state);
    err, out := generated.Parse(s);
  }
}
