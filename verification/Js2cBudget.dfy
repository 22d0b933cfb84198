/**
 The generated token count is no larger than it must be: for every schema there is a document
 it allows for that takes every one of the tokens.
 */
module Js2cBudget {
  import opened Options
  import opened Jsmn
  import opened JsonDocument
  import opened JsmnRoundTrip
  import opened S = Js2cSchema
  import opened Js2cConformance
  import opened Js2cEndToEnd
  import opened Js2cStrictness

  /** The option that needs the most, from option `k` on. */
  function Largest(s: Schema, k: nat): (best: nat)
    requires s.Union? && k < |s.options|
    ensures best < |s.options|
    decreases |s.options| - k
  {
    if k == |s.options| - 1 then k
    else
      var rest := Largest(s, k + 1);
      if MaxTokens(s.options[k]) >= MaxTokens(s.options[rest]) then k else rest
  }

  lemma {:induction false} LargestNeedsMost(s: Schema, k: nat)
    requires s.Union? && k < |s.options|
    ensures MaxTokens(s.options[Largest(s, k)]) == MaxOptionTokens(s, k)
    decreases |s.options| - k
  {
    if k < |s.options| - 1 {
      LargestNeedsMost(s, k + 1);
    }
  }

  /** Every property present, every array as long as it may be, of every union the option that
      needs the most. */
  function Fullest(s: Schema, allow: bool): Doc
    requires Generates(s, allow)
    decreases s, 1, 0
  {
    match s
    case Leaf(_, _, _) => Prim("0")
    case Raw => Prim("0")
    case Void => Prim("0")
    case Array(item, _, maxItems, _) => Arr("", Repeated(Fullest(item, allow), maxItems))
    case Object(_, _, _, _) => Obj("", FullestMembers(s, allow, 0))
    case Union(options) => Fullest(options[Largest(s, 0)], allow)
  }

  function FullestMembers(s: Schema, allow: bool, k: nat): Members
    requires s.Object? && Generates(s, allow) && k <= |s.fields|
    decreases s, 0, |s.fields| - k
  {
    if k == |s.fields| then NoMembers
    else Member("", s.fields[k].name, "", "", Fullest(s.fields[k].schema, allow), "", FullestMembers(s, allow, k + 1))
  }

  lemma {:induction false} FullestIsPlain(s: Schema, allow: bool)
    requires Generates(s, allow)
    ensures Plain(s, Fullest(s, allow))
    decreases s, 1, 0
  {
    match s
    case Leaf(_, _, _) =>
    case Raw =>
    case Void =>
    case Array(item, _, maxItems, _) =>
      FullestIsPlain(item, allow);
      RepeatedIsPlain(item, Fullest(item, allow), maxItems);
    case Object(_, _, _, _) => FullestMembersArePlain(s, allow, 0);
    case Union(options) => FullestIsPlain(options[Largest(s, 0)], allow);
  }

  lemma {:induction false} RepeatedIsPlain(item: Schema, d: Doc, n: nat)
    requires Plain(item, d)
    ensures PlainItems(item, Repeated(d, n))
    decreases n
  {
    if n > 0 {
      RepeatedIsPlain(item, d, n - 1);
    }
  }

  lemma {:induction false} FullestKeys(s: Schema, allow: bool, k: nat, name: string)
    requires s.Object? && Generates(s, allow) && k <= |s.fields|
    ensures HasKey(FullestMembers(s, allow, k), name) <==> exists i :: k <= i < |s.fields| && s.fields[i].name == name
    decreases |s.fields| - k
  {
    if k < |s.fields| {
      FullestKeys(s, allow, k + 1, name);
    }
  }

  lemma {:induction false} FullestMembersArePlain(s: Schema, allow: bool, k: nat)
    requires s.Object? && Generates(s, allow) && k <= |s.fields|
    ensures PlainMembers(s, FullestMembers(s, allow, k))
    decreases s, 0, |s.fields| - k
  {
    if k < |s.fields| {
      IndexOfField(s.fields, k);
      FullestIsPlain(s.fields[k].schema, allow);
      FullestKeys(s, allow, k + 1, s.fields[k].name);
      FullestMembersArePlain(s, allow, k + 1);
    }
  }

  lemma {:induction false} FullestCount(s: Schema, allow: bool)
    requires Generates(s, allow)
    ensures TokenCount(Fullest(s, allow)) == MaxTokens(s)
    decreases s, 1, 0
  {
    match s
    case Leaf(_, _, _) =>
    case Raw =>
    case Void =>
    case Array(item, _, maxItems, _) =>
      FullestCount(item, allow);
      RepeatedCount(Fullest(item, allow), maxItems);
    case Object(_, _, _, _) => FullestMemberCount(s, allow, 0);
    case Union(options) =>
      FullestCount(options[Largest(s, 0)], allow);
      LargestNeedsMost(s, 0);
  }

  lemma {:induction false} RepeatedCount(d: Doc, n: nat)
    ensures ItemTokenCount(Repeated(d, n)) == n * TokenCount(d)
    decreases n
  {
    if n > 0 {
      RepeatedCount(d, n - 1);
      assert n * TokenCount(d) == TokenCount(d) + (n - 1) * TokenCount(d);
    }
  }

  lemma {:induction false} FullestMemberCount(s: Schema, allow: bool, k: nat)
    requires s.Object? && Generates(s, allow) && k <= |s.fields|
    ensures MemberTokenCount(FullestMembers(s, allow, k)) == MaxFieldTokens(s, k)
    decreases s, 0, |s.fields| - k
  {
    if k < |s.fields| {
      FullestCount(s.fields[k].schema, allow);
      FullestMemberCount(s, allow, k + 1);
    }
  }

  /** The count is exact: no document the accounting allows for needs more, and one needs as
      many. */
  lemma BudgetIsExact(s: Schema, allow: bool, n: nat)
    requires Generates(s, allow)
    ensures n == MaxTokens(s) <==>
            && (forall d :: Plain(s, d) ==> TokenCount(d) <= n)
            && (exists d :: Plain(s, d) && TokenCount(d) == n)
  {
    FullestIsPlain(s, allow);
    FullestCount(s, allow);
    forall d | Plain(s, d) ensures TokenCount(d) <= MaxTokens(s) {
      PlainFits(s, d);
    }
  }

  /** Every property name can be written as it is. */
  predicate Spellable(s: Schema) {
    match s
    case Leaf(_, _, _) => true
    case Raw => true
    case Void => true
    case Array(item, _, _, _) => Spellable(item)
    case Object(fields, _, _, _) =>
      forall i :: 0 <= i < |fields| ==> StringBody(fields[i].name) && Spellable(fields[i].schema)
    case Union(options) => forall i :: 0 <= i < |options| ==> Spellable(options[i])
  }

  lemma {:induction false} FullestIsWellFormed(s: Schema, allow: bool)
    requires Generates(s, allow) && Spellable(s)
    ensures WellFormed(Fullest(s, allow))
    decreases s, 1, 0
  {
    match s
    case Leaf(_, _, _) =>
    case Raw =>
    case Void =>
    case Array(item, _, maxItems, _) =>
      FullestIsWellFormed(item, allow);
      RepeatedIsWellFormed(Fullest(item, allow), maxItems);
    case Object(_, _, _, _) => FullestMembersAreWellFormed(s, allow, 0);
    case Union(options) => FullestIsWellFormed(options[Largest(s, 0)], allow);
  }

  lemma {:induction false} RepeatedIsWellFormed(d: Doc, n: nat)
    requires WellFormed(d)
    ensures ItemsWellFormed(Repeated(d, n))
    decreases n
  {
    if n > 0 {
      RepeatedIsWellFormed(d, n - 1);
    }
  }

  lemma {:induction false} FullestMembersAreWellFormed(s: Schema, allow: bool, k: nat)
    requires s.Object? && Generates(s, allow) && Spellable(s) && k <= |s.fields|
    ensures MembersWellFormed(FullestMembers(s, allow, k))
    decreases s, 0, |s.fields| - k
  {
    if k < |s.fields| {
      FullestIsWellFormed(s.fields[k].schema, allow);
      FullestMembersAreWellFormed(s, allow, k + 1);
    }
  }

  /** A buffer with a slot less than declared refuses, for want of tokens, a document the
      accounting allows for. */
  lemma OneSlotLess(s: Schema, allow: bool, slots: nat) returns (d: Doc)
    requires Generates(s, allow) && Spellable(s) && (s.Object? || s.Array?) && slots < MaxTokens(s)
    ensures WellFormed(d) && Bracketed(d) && Plain(s, d) && Tokenize(Text(d), slots).Failed?
    ensures Tokenize(Text(d), slots).error == NoMem
  {
    d := Fullest(s, allow);
    FullestIsPlain(s, allow);
    FullestCount(s, allow);
    FullestIsWellFormed(s, allow);
    var f := File("", d, "");
    assert f.Print() == Text(d);
    TooFewSlots(f, slots);
  }
}
