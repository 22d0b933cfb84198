/**
 The schemas the generator accepts, and the pure parts of the generators: which fields
 have a default, what the default is, and how many tokens a value may take.
 */
module Js2cSchema {
  import opened Options

  /** What the generated parser stores. Leaf values are opaque. */
  datatype Out =
    | Value(v: int)
    | Nothing
    | Slice(index: int, length: int)
    | List(items: seq<Out>)
    | Record(fields: map<string, Out>)
    | Choice(option: nat, out: Out)

  datatype Field = Field(name: string, schema: Schema)

  /** `Leaf` stands for every one-token value: boolean, number, string, enum, and (storing
      nothing) const. `dflt` of an array or object is its js2cDefault. */
  datatype Schema =
    | Leaf(parser: nat, stores: bool, dflt: Option<int>)
    | Raw
    | Void
    | Array(item: Schema, minItems: nat, maxItems: nat, js2cDefault: Option<Out>)
    | Object(fields: seq<Field>, required: set<string>, additionalProperties: bool, js2cDefault: Option<Out>)
    | Union(options: seq<Schema>)

  /** A const and a void have no C type. */
  predicate Stores(s: Schema) {
    !s.Void? && (s.Leaf? ==> s.stores)
  }

  predicate HasDefault(s: Schema) {
    match s
    case Leaf(_, _, dflt) => dflt.Some?
    case Raw => false
    case Void => false
    case Array(_, minItems, _, dflt) => dflt.Some? || minItems == 0
    case Object(fields, required, _, dflt) =>
      dflt.Some? || (required == {} && forall i :: 0 <= i < |fields| ==> HasDefault(fields[i].schema))
    case Union(_) => false
  }

  /** The first field of that name; the number of fields when there is none. */
  function FieldIndex(fields: seq<Field>, name: string): (i: nat)
    ensures i <= |fields|
    ensures i < |fields| ==> fields[i].name == name
    ensures forall j :: 0 <= j < i ==> fields[j].name != name
  {
    if fields == [] then 0
    else if fields[0].name == name then 0
    else
      var i := FieldIndex(fields[1..], name);
      assert forall j :: 1 <= j < i + 1 ==> fields[j] == fields[1..][j - 1];
      1 + i
  }

  function FieldNames(fields: seq<Field>): set<string> {
    set i | 0 <= i < |fields| :: fields[i].name
  }

  predicate Declared(fields: seq<Field>, name: string) {
    FieldIndex(fields, name) < |fields|
  }

  lemma DeclaredIsName(fields: seq<Field>, name: string)
    ensures Declared(fields, name) <==> name in FieldNames(fields)
  {
  }

  function DefaultOf(s: Schema): Out
    requires HasDefault(s)
  {
    match s
    case Leaf(_, _, dflt) => Value(dflt.value)
    case Array(_, _, _, dflt) => if dflt.Some? then dflt.value else List([])
    case Object(fields, _, _, dflt) =>
      if dflt.Some? then dflt.value
      else Record(map name | name in FieldNames(fields) :: DefaultOf(fields[FieldIndex(fields, name)].schema))
  }

  /** An absent field is no error: it has a default, or it stores nothing and is not required. */
  predicate MayBeAbsent(f: Field, required: set<string>) {
    HasDefault(f.schema) || f.name !in required
  }

  predicate DistinctNames(fields: seq<Field>) {
    forall i, j :: 0 <= i < j < |fields| ==> fields[i].name != fields[j].name
  }

  /** The schemas for which a parser is generated, `allow` being the global setting that
      permits unknown keys. */
  predicate Generates(s: Schema, allow: bool) {
    match s
    case Leaf(_, stores, dflt) => !stores ==> dflt.None?
    case Raw => true
    case Void => true
    case Array(item, _, _, _) => Stores(item) && Generates(item, allow)
    case Object(fields, required, additional, _) =>
      && (additional ==> allow)
      && DistinctNames(fields)
      && forall i :: 0 <= i < |fields| ==>
           && Generates(fields[i].schema, allow)
           && (HasDefault(fields[i].schema) || fields[i].name in required || !Stores(fields[i].schema))
    case Union(options) =>
      options != [] && forall i :: 0 <= i < |options| ==> Generates(options[i], allow) && Stores(options[i])
  }

  // ------------------------------------------------------------- token budget

  /** The generators' own accounting. */
  function MaxTokens(s: Schema): (n: nat)
    ensures n >= 1
    decreases s, 1, 0
  {
    match s
    case Leaf(_, _, _) => 1
    case Raw => 1
    case Void => 1
    case Array(item, _, maxItems, _) => ArrayTokens(maxItems, MaxTokens(item))
    case Object(fields, _, _, _) => MaxFieldTokens(s, 0) + 1
    case Union(options) => MaxOptionTokens(s, 0)
  }

  function ArrayTokens(maxItems: nat, each: nat): (n: nat)
    ensures n >= 1
  {
    maxItems * each + 1
  }

  function MaxFieldTokens(s: Schema, k: nat): nat
    requires s.Object? && k <= |s.fields|
    decreases s, 0, |s.fields| - k
  {
    if k == |s.fields| then 0 else 1 + MaxTokens(s.fields[k].schema) + MaxFieldTokens(s, k + 1)
  }

  function MaxOptionTokens(s: Schema, k: nat): (n: nat)
    requires s.Union? && k <= |s.options|
    ensures n >= 1
    decreases s, 0, |s.options| - k
  {
    if k == |s.options| then 1
    else
      var a, b := MaxTokens(s.options[k]), MaxOptionTokens(s, k + 1);
      if a >= b then a else b
  }
}
