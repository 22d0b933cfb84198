/**
 The in-place tokenizer: position, next free slot and superior token as fields, token
 entries written into a caller-supplied array. Every method is tied to the functions
 of module Jsmn.
 */
module JsmnParser {
  import opened Jsmn

  datatype Status = Ok | Err(error: Error)

  class Parser {
    var pos: nat
    var toknext: nat
    var toksuper: int
    const tokens: array<Token>

    constructor (tokens: array<Token>)
      ensures this.tokens == tokens
      ensures Valid("") && Abstract() == Start
    {
      this.tokens := tokens;
      pos, toknext, toksuper := 0, 0, -1;
    }

    ghost predicate Valid(js: string)
      reads this
    {
      toknext <= tokens.Length && pos <= |js| && -1 <= toksuper < toknext
    }

    /** The filled slots and the two cursors, as a value. */
    ghost function Abstract(): State
      requires toknext <= tokens.Length
      reads this, tokens
    {
      State(pos, tokens[..toknext], toksuper)
    }

    method AllocToken() returns (index: int)
      requires toknext <= tokens.Length
      modifies this`toknext, tokens
      ensures toknext <= tokens.Length
      ensures index == -1 <==> old(toknext) == tokens.Length
      ensures index == -1 ==> toknext == old(toknext) && tokens[..] == old(tokens[..])
      ensures index != -1 ==> index == old(toknext) && toknext == old(toknext) + 1
      ensures index != -1 ==> tokens[..index] == old(tokens[..index])
      ensures index != -1 ==> tokens[index].start == -1 && tokens[index].end == -1 && tokens[index].size == 0
    {
      if toknext >= tokens.Length {
        return -1;
      }
      index := toknext;
      toknext := toknext + 1;
      tokens[index] := tokens[index].(start := -1, end := -1, size := 0);
    }

    /** Scan a primitive that starts at `pos`. The position is left on its last
        character, for the caller's own increment. */
    method ParsePrimitive(js: string) returns (r: Status)
      requires Valid(js) && pos < |js|
      requires js[pos] != '\0' && !EndsPrimitive(js[pos])
      modifies this`pos, this`toknext, tokens
      ensures toknext <= tokens.Length
      ensures match ScanPrimitive(js, old(pos))
              case Bad(e) => r == Err(e) && pos == old(pos)
              case Found(at) =>
                if old(toknext) == tokens.Length then r == Err(NoMem) && pos == old(pos)
                else
                  && r == Ok && pos == at - 1 && pos >= old(pos)
                  && tokens[..toknext] == old(tokens[..toknext]) + [Token(Primitive, old(pos), at, 0)]
    {
      var start := pos;
      while pos < |js| && js[pos] != '\0' && !EndsPrimitive(js[pos])
        modifies this`pos
        invariant start <= pos <= |js|
        invariant ScanPrimitive(js, start) == ScanPrimitive(js, pos)
      {
        if !PrimitiveChar(js[pos]) {
          pos := start;
          return Err(Inval);
        }
        pos := pos + 1;
      }
      if pos == |js| || js[pos] == '\0' {
        pos := start;
        return Err(Part);
      }
      ghost var before := tokens[..toknext];
      var i := AllocToken();
      if i == -1 {
        pos := start;
        return Err(NoMem);
      }
      tokens[i] := Token(Primitive, start, pos, 0);
      assert tokens[..toknext] == before + [tokens[i]];
      pos := pos - 1;
      return Ok;
    }

    /** The escape sequence whose backslash is at `pos`. On success the position is left on
        its last character. */
    method SkipEscape(js: string) returns (r: Status)
      requires pos + 1 < |js| && js[pos] == '\\'
      modifies this`pos
      ensures match r
              case Err(e) => ScanString(js, old(pos)) == Bad(e)
              case Ok => old(pos) < pos < |js| && ScanString(js, old(pos)) == ScanString(js, pos + 1)
    {
      pos := pos + 1;
      if IsEscape(js[pos]) {
        return Ok;
      }
      if js[pos] != 'u' {
        return Err(Inval);
      }
      pos := pos + 1;
      ghost var hex := pos;
      var i := 0;
      while i < 4 && pos < |js| && js[pos] != '\0'
        invariant 0 <= i <= 4 && pos == hex + i <= |js|
        invariant ScanHex(js, hex, 4) == ScanHex(js, pos, 4 - i)
      {
        if !IsHex(js[pos]) {
          return Err(Inval);
        }
        pos := pos + 1;
        i := i + 1;
      }
      pos := pos - 1;
      return Ok;
    }

    /** Scan a string whose opening quote is at `pos`. On success the position is left on
        the closing quote. */
    method ParseString(js: string) returns (r: Status)
      requires Valid(js) && pos < |js|
      modifies this`pos, this`toknext, tokens
      ensures toknext <= tokens.Length
      ensures match ScanString(js, old(pos) + 1)
              case Bad(e) => r == Err(e) && pos == old(pos)
              case Found(at) =>
                if old(toknext) == tokens.Length then r == Err(NoMem) && pos == old(pos)
                else
                  && r == Ok && pos == at
                  && tokens[..toknext] == old(tokens[..toknext]) + [Token(String, old(pos) + 1, at, 0)]
    {
      var start := pos;
      pos := pos + 1;
      while pos < |js| && js[pos] != '\0' && js[pos] != '\"'
        modifies this`pos
        invariant start < pos <= |js|
        invariant ScanString(js, start + 1) == ScanString(js, pos)
        decreases |js| - pos
      {
        if js[pos] == '\\' && pos + 1 < |js| {
          r := SkipEscape(js);
          if r.Err? {
            pos := start;
            return;
          }
        }
        pos := pos + 1;
      }
      if pos == |js| || js[pos] == '\0' {
        pos := start;
        return Err(Part);
      }
      ghost var before := tokens[..toknext];
      var i := AllocToken();
      if i == -1 {
        pos := start;
        return Err(NoMem);
      }
      tokens[i] := Token(String, start + 1, pos, 0);
      assert tokens[..toknext] == before + [tokens[i]];
      return Ok;
    }

    /** The innermost open bracket at or below index `from`. */
    method FindOpen(from: int) returns (i: int)
      requires -1 <= from < toknext <= tokens.Length || from == -1
      ensures i == LastOpen(tokens[..from + 1])
    {
      ghost var ts := tokens[..from + 1];
      i := from;
      assert ts[..i + 1] == ts;
      while i >= 0 && !tokens[i].Open()
        invariant -1 <= i <= from
        invariant LastOpen(ts) == LastOpen(ts[..i + 1])
      {
        assert ts[..i + 1][..i] == ts[..i];
        i := i - 1;
      }
      assert i >= 0 ==> ts[..i + 1][i] == tokens[i];
    }

    /** A closing bracket: close the innermost open token if its kind matches. */
    method CloseInnermost(kind: Kind) returns (r: Status)
      requires toknext <= tokens.Length && -1 <= toksuper < toknext
      modifies this`toksuper, tokens
      ensures match CloseBracket(old(Abstract()), kind)
              case Fail(e) => r == Err(e)
              case Next(s) => r == Ok && tokens[..toknext] == s.toks && toksuper == s.super
    {
      var i := FindOpen(toknext - 1);
      if i == -1 {
        return Err(Inval);
      }
      if tokens[i].kind != kind {
        return Err(Inval);
      }
      Close(i);
      return Ok;
    }

    /** Closes the token at `i`; the next open one below it becomes superior. */
    method Close(i: nat)
      requires i < toknext <= tokens.Length
      modifies this`toksuper, tokens
      ensures tokens[..toknext] == old(tokens[..toknext])[i := old(tokens[i]).(end := pos + 1)]
      ensures toksuper == LastOpen(tokens[..toknext][..i + 1])
    {
      ghost var ts := tokens[..toknext];
      toksuper := -1;
      tokens[i] := tokens[i].(end := pos + 1);
      var outer := FindOpen(i);
      CloseAt(ts, tokens[..toknext], tokens[..i + 1], i, pos + 1);
      if outer >= 0 {
        toksuper := outer;
      }
    }

    static lemma CloseAt(before: seq<Token>, after: seq<Token>, top: seq<Token>, i: nat, e: nat)
      requires i < |before| == |after| && after[i] == before[i].(end := e)
      requires forall j :: 0 <= j < |before| && j != i ==> after[j] == before[j]
      requires |top| == i + 1 && forall j :: 0 <= j <= i ==> top[j] == after[j]
      ensures after == before[i := before[i].(end := e)]
      ensures top == before[i := before[i].(end := e)][..i + 1]
    {
    }

    /** An opening bracket: a new open token, which becomes superior. */
    method OpenAt(kind: Kind) returns (r: Status)
      requires toknext <= tokens.Length && -1 <= toksuper < toknext
      modifies this`toknext, this`toksuper, tokens
      ensures match OpenBracket(tokens.Length, old(Abstract()), kind)
              case Fail(e) => r == Err(e)
              case Next(s) => r == Ok && toknext <= tokens.Length && tokens[..toknext] == s.toks && toksuper == s.super
    {
      ghost var ts := tokens[..toknext];
      var i := AllocToken();
      if i == -1 {
        return Err(NoMem);
      }
      assert tokens[..i] == ts;
      if toksuper != -1 {
        if tokens[toksuper].kind == Object {
          return Err(Inval);
        }
        tokens[toksuper] := tokens[toksuper].(size := tokens[toksuper].size + 1);
      }
      assert tokens[..i] == Bump(ts, toksuper);
      tokens[i] := tokens[i].(kind := kind);
      tokens[i] := tokens[i].(start := pos);
      assert tokens[..toknext] == tokens[..i] + [tokens[i]];
      toksuper := toknext - 1;
      return Ok;
    }

    /** A comma: a key gives way to the innermost open bracket. */
    method Comma()
      requires toknext <= tokens.Length && -1 <= toksuper < toknext
      modifies this`toksuper
      ensures toksuper == old(AfterComma(tokens[..toknext], toksuper))
    {
      if toksuper != -1 && !tokens[toksuper].Container() {
        ghost var ts := tokens[..toknext];
        var i := toknext - 1;
        assert ts[..i + 1] == ts;
        while i >= 0 && !(tokens[i].Container() && tokens[i].Open())
          invariant -1 <= i < toknext
          invariant LastOpenContainer(ts) == LastOpenContainer(ts[..i + 1])
        {
          assert ts[..i + 1][..i] == ts[..i];
          i := i - 1;
        }
        if i >= 0 {
          assert ts[..i + 1][i] == tokens[i];
          toksuper := i;
        }
      }
    }

    method BumpSuper()
      requires toknext <= tokens.Length && -1 <= toksuper < toknext
      modifies tokens
      ensures tokens[..toknext] == Bump(old(tokens[..toknext]), toksuper)
    {
      if toksuper != -1 {
        tokens[toksuper] := tokens[toksuper].(size := tokens[toksuper].size + 1);
      }
    }

    method StringAt(js: string) returns (r: Status)
      requires Valid(js) && pos < |js|
      modifies this`pos, this`toknext, tokens
      ensures match StringToken(js, tokens.Length, old(Abstract()))
              case Fail(e) => r == Err(e) && pos == old(pos)
              case Next(s) => r == Ok && toknext <= tokens.Length && Abstract().(pos := pos + 1) == s
    {
      ghost var ts := tokens[..toknext];
      r := ParseString(js);
      if r.Ok? {
        BumpSuper();
        assert tokens[..toknext] == Bump(ts, toksuper) + [tokens[toknext - 1]];
      }
    }

    method PrimitiveAt(js: string) returns (r: Status)
      requires Valid(js) && pos < |js| && js[pos] != '\0' && !EndsPrimitive(js[pos])
      modifies this`pos, this`toknext, tokens
      ensures match PrimitiveToken(js, tokens.Length, old(Abstract()))
              case Fail(e) => r == Err(e) && pos == old(pos)
              case Next(s) => r == Ok && toknext <= tokens.Length && Abstract().(pos := pos + 1) == s
    {
      ghost var ts := tokens[..toknext];
      if toksuper != -1 {
        var t := tokens[toksuper];
        if t.kind == Object || (t.kind == String && t.size != 0) {
          return Err(Inval);
        }
      }
      r := ParsePrimitive(js);
      if r.Ok? {
        BumpSuper();
        assert tokens[..toknext] == Bump(ts, toksuper) + [tokens[toknext - 1]];
      }
    }

    /** One iteration of the loop in `Parse`, short of its final increment. */
    method ParseOne(js: string) returns (r: Status)
      requires Valid(js) && pos < |js| && js[pos] != '\0'
      modifies this, tokens
      ensures match Step(js, tokens.Length, old(Abstract()))
              case Fail(e) => r == Err(e) && pos == old(pos)
              case Next(s) => r == Ok && toknext <= tokens.Length && Abstract().(pos := pos + 1) == s
    {
      var c := js[pos];
      if c == '{' || c == '[' {
        r := OpenAt(if c == '{' then Object else Array);
        return;
      } else if c == '}' || c == ']' {
        r := CloseInnermost(if c == '}' then Object else Array);
        return;
      } else if c == '\"' {
        r := StringAt(js);
        return;
      } else if IsSpace(c) {
      } else if c == ':' {
        toksuper := toknext - 1;
      } else if c == ',' {
        Comma();
      } else if StartsPrimitive(c) {
        r := PrimitiveAt(js);
        return;
      } else {
        return Err(Inval);
      }
      return Ok;
    }

    /** Tokenize from a fresh parser. `count` is the number of tokens, or -1. */
    method Parse(js: string) returns (r: Status, count: int)
      requires Valid(js) && Abstract() == Start
      modifies this, tokens
      ensures match Tokenize(js, tokens.Length)
              case Tokens(ts) =>
                && r == Ok && count == |ts| == toknext <= tokens.Length
                && tokens[..toknext] == ts
              case Failed(e, at) => r == Err(e) && pos == at && count == -1
    {
      while pos < |js| && js[pos] != '\0'
        invariant Valid(js)
        invariant Tokenize(js, tokens.Length) == Run(js, tokens.Length, Abstract())
        decreases |js| - pos
      {
        r := ParseOne(js);
        if r.Err? {
          return r, -1;
        }
        pos := pos + 1;
      }
      var i := FindOpen(toknext - 1);
      if i >= 0 {
        return Err(Part), -1;
      }
      return Ok, toknext;
    }
  }
}
