/**
 The jsmn tokenizer, as built by the generated parsers: strict mode, no parent links.

 This file gives the token array's meaning: the scanners, one iteration of the outer
 loop (`Step`) and the whole run (`Run`). The in-place implementation is in
 JsmnParser.dfy and is proved to compute exactly `Run`.
 */
module Jsmn {

  datatype Kind = Object | Array | String | Primitive

  /** `end` is -1 while a bracket is still open; `start` is -1 only in a slot that was
      allocated and never filled. */
  datatype Token = Token(kind: Kind, start: int, end: int, size: nat) {
    predicate Open() {
      start != -1 && end == -1
    }

    predicate Container() {
      kind == Object || kind == Array
    }
  }

  datatype Error = NoMem | Inval | Part

  // ---------------------------------------------------------------- characters

  predicate IsSpace(c: char) {
    c == '\t' || c == '\r' || c == '\n' || c == ' '
  }

  /** What ends a primitive. In strict mode a colon does not. */
  predicate EndsPrimitive(c: char) {
    IsSpace(c) || c == ',' || c == ']' || c == '}'
  }

  predicate StartsPrimitive(c: char) {
    c == '-' || '0' <= c <= '9' || c == 't' || c == 'f' || c == 'n'
  }

  predicate PrimitiveChar(c: char) {
    32 <= c as int < 127
  }

  predicate IsHex(c: char) {
    '0' <= c <= '9' || 'A' <= c <= 'F' || 'a' <= c <= 'f'
  }

  predicate IsEscape(c: char) {
    c == '\"' || c == '/' || c == '\\' || c == 'b' || c == 'f' || c == 'r' || c == 'n' || c == 't'
  }

  // ------------------------------------------------------------------ scanners

  /** Where a scanner stopped: `Found(at)` is the index of the delimiter. */
  datatype Scan = Found(at: nat) | Bad(error: Error)

  function ScanPrimitive(js: string, i: nat): (r: Scan)
    requires i <= |js|
    ensures r.Found? ==> i <= r.at < |js| && EndsPrimitive(js[r.at])
    decreases |js| - i
  {
    if i == |js| || js[i] == '\0' then Bad(Part)
    else if EndsPrimitive(js[i]) then Found(i)
    else if !PrimitiveChar(js[i]) then Bad(Inval)
    else ScanPrimitive(js, i + 1)
  }

  /** The hex digits of a unicode escape: `n` of them, fewer only where the text ends. */
  function ScanHex(js: string, i: nat, n: nat): (r: Scan)
    requires i <= |js|
    ensures r.Found? ==> i <= r.at <= |js| && r.at <= i + n
    ensures r.Found? && r.at < i + n ==> r.at == |js| || js[r.at] == '\0'
    decreases n
  {
    if n == 0 || i == |js| || js[i] == '\0' then Found(i)
    else if !IsHex(js[i]) then Bad(Inval)
    else ScanHex(js, i + 1, n - 1)
  }

  /** The inside of a string, from just after the opening quote to the closing one. */
  function ScanString(js: string, i: nat): (r: Scan)
    requires i <= |js|
    ensures r.Found? ==> i <= r.at < |js| && js[r.at] == '\"'
    decreases |js| - i
  {
    if i == |js| || js[i] == '\0' then Bad(Part)
    else if js[i] == '\"' then Found(i)
    else if js[i] == '\\' && i + 1 < |js| then
      if IsEscape(js[i + 1]) then ScanString(js, i + 2)
      else if js[i + 1] == 'u' then
        var h := ScanHex(js, i + 2, 4);
        if h.Bad? then h else ScanString(js, h.at)
      else Bad(Inval)
    else ScanString(js, i + 1)
  }

  // --------------------------------------------------------------- token array

  /** The backward scan for the innermost open bracket; -1 when there is none. */
  function LastOpen(ts: seq<Token>): (i: int)
    ensures -1 <= i < |ts|
    ensures i != -1 ==> ts[i].Open()
  {
    if ts == [] then -1
    else if ts[|ts| - 1].Open() then |ts| - 1
    else LastOpen(ts[..|ts| - 1])
  }

  /** The scan at a comma also looks at the kind. */
  function LastOpenContainer(ts: seq<Token>): (i: int)
    ensures -1 <= i < |ts|
    ensures i != -1 ==> ts[i].Open() && ts[i].Container()
  {
    if ts == [] then -1
    else if ts[|ts| - 1].Container() && ts[|ts| - 1].Open() then |ts| - 1
    else LastOpenContainer(ts[..|ts| - 1])
  }

  lemma {:induction false} NoneOpenAfterLast(ts: seq<Token>, j: int)
    requires LastOpen(ts) < j < |ts|
    ensures !ts[j].Open()
    decreases |ts|
  {
    if j < |ts| - 1 {
      assert ts[..|ts| - 1][j] == ts[j];
      NoneOpenAfterLast(ts[..|ts| - 1], j);
    }
  }

  /** When the innermost open token is a bracket, both scans find it. */
  lemma {:induction false} SameScan(ts: seq<Token>)
    requires LastOpen(ts) != -1 ==> ts[LastOpen(ts)].Container()
    ensures LastOpenContainer(ts) == LastOpen(ts)
    decreases |ts|
  {
    if ts != [] && !ts[|ts| - 1].Open() {
      SameScan(ts[..|ts| - 1]);
    }
  }

  /** One more child for the token at `i`. */
  function Bump(ts: seq<Token>, i: int, n: nat := 1): (r: seq<Token>)
    requires -1 <= i < |ts|
    ensures |r| == |ts|
  {
    if i == -1 then ts else ts[i := ts[i].(size := ts[i].size + n)]
  }

  // ------------------------------------------------------------------- the run

  datatype State = State(pos: nat, toks: seq<Token>, super: int) {
    predicate Valid(js: string) {
      pos <= |js| && -1 <= super < |toks|
    }
  }

  const Start := State(0, [], -1)

  datatype StepResult = Next(st: State) | Fail(error: Error)

  function OpenBracket(cap: nat, s: State, kind: Kind): StepResult
    requires -1 <= s.super < |s.toks|
  {
    if |s.toks| >= cap then Fail(NoMem)
    else if s.super != -1 && s.toks[s.super].kind == Object then Fail(Inval)
    else Next(State(s.pos + 1, Bump(s.toks, s.super) + [Token(kind, s.pos, -1, 0)], |s.toks|))
  }

  function CloseBracket(s: State, kind: Kind): StepResult
    requires -1 <= s.super < |s.toks|
  {
    var i := LastOpen(s.toks);
    if i == -1 then Fail(Inval)
    else if s.toks[i].kind != kind then Fail(Inval)
    else
      var ts := s.toks[i := s.toks[i].(end := s.pos + 1)];
      Next(State(s.pos + 1, ts, LastOpen(ts[..i + 1])))
  }

  function StringToken(js: string, cap: nat, s: State): StepResult
    requires s.Valid(js) && s.pos < |js|
  {
    match ScanString(js, s.pos + 1)
    case Bad(e) => Fail(e)
    case Found(at) =>
      if |s.toks| >= cap then Fail(NoMem)
      else
        Next(State(at + 1, Bump(s.toks, s.super) + [Token(String, s.pos + 1, at, 0)], s.super))
  }

  function PrimitiveToken(js: string, cap: nat, s: State): StepResult
    requires s.Valid(js) && s.pos < |js|
  {
    if s.super != -1 && (s.toks[s.super].kind == Object ||
                         (s.toks[s.super].kind == String && s.toks[s.super].size != 0))
    then Fail(Inval)
    else
      match ScanPrimitive(js, s.pos)
      case Bad(e) => Fail(e)
      case Found(at) =>
        if |s.toks| >= cap then Fail(NoMem)
        else
          Next(State(at, Bump(s.toks, s.super) + [Token(Primitive, s.pos, at, 0)], s.super))
  }

  function AfterComma(ts: seq<Token>, super: int): (r: int)
    requires -1 <= super < |ts|
    ensures -1 <= r < |ts|
  {
    if super != -1 && !ts[super].Container() then
      var i := LastOpenContainer(ts);
      if i == -1 then super else i
    else super
  }

  /** One iteration of the outer loop, including its increment of the position. */
  function Step(js: string, cap: nat, s: State): (r: StepResult)
    requires s.Valid(js) && s.pos < |js|
    ensures r.Next? ==> r.st.Valid(js) && r.st.pos > s.pos
  {
    var c := js[s.pos];
    if c == '{' then OpenBracket(cap, s, Object)
    else if c == '[' then OpenBracket(cap, s, Array)
    else if c == '}' then CloseBracket(s, Object)
    else if c == ']' then CloseBracket(s, Array)
    else if c == '\"' then StringToken(js, cap, s)
    else if IsSpace(c) then Next(s.(pos := s.pos + 1))
    else if c == ':' then Next(s.(pos := s.pos + 1, super := |s.toks| - 1))
    else if c == ',' then Next(s.(pos := s.pos + 1, super := AfterComma(s.toks, s.super)))
    else if StartsPrimitive(c) then PrimitiveToken(js, cap, s)
    else Fail(Inval)
  }

  /** `pos` of an error is where the parser stands when it gives up. */
  datatype Result = Tokens(toks: seq<Token>) | Failed(error: Error, pos: nat)

  predicate AtEnd(js: string, s: State) {
    s.pos >= |js| || js[s.pos] == '\0'
  }

  function Run(js: string, cap: nat, s: State): Result
    requires s.Valid(js)
    decreases |js| - s.pos
  {
    if AtEnd(js, s) then
      if LastOpen(s.toks) == -1 then Tokens(s.toks) else Failed(Part, s.pos)
    else
      match Step(js, cap, s)
      case Next(t) => Run(js, cap, t)
      case Fail(e) => Failed(e, s.pos)
  }

  /** What a fresh parser over `cap` slots makes of a text. */
  function Tokenize(js: string, cap: nat): Result {
    Run(js, cap, Start)
  }
}
