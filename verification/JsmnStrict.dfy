/**
 What the tokenizer refuses: exactly which strings and primitives are scanned, and that in
 an accepted text every character is accounted for by the tokens.
 */
module JsmnStrict {
  import opened Jsmn
  import opened JsonDocument
  import opened JsmnRoundTrip

  // ------------------------------------------------------------- one string

  /** The escape at `k` cannot be completed: nothing that may follow a backslash, or a
      unicode escape with something else among its four digits. */
  ghost predicate Offends(js: string, k: nat) {
    && k + 1 < |js| && js[k] == '\\'
    && if js[k + 1] == 'u' then exists h: nat :: CutsShort(js, k, h)
       else !Escapable(js[k + 1])
  }

  /** The first character from `from` on that is no digit stands at `h`, and is no terminator. */
  predicate BadDigit(js: string, from: nat, h: nat) {
    from <= h < |js| && js[h] != '\0' && !HexDigit(js[h]) && forall j :: from <= j < h ==> HexDigit(js[j])
  }

  /** One of the four digits of the escape at `k` is none. */
  predicate CutsShort(js: string, k: nat, h: nat) {
    k + 2 <= h < k + 6 && BadDigit(js, k + 2, h)
  }

  lemma {:induction false} HexScanned(js: string, i: nat, n: nat)
    requires i <= |js|
    ensures match ScanHex(js, i, n)
            case Found(at) => forall j :: i <= j < at ==> HexDigit(js[j])
            case Bad(e) => e == Inval && exists h: nat :: i <= h < i + n && BadDigit(js, i, h)
    decreases n
  {
    if n > 0 && i < |js| && js[i] != '\0' {
      if IsHex(js[i]) {
        HexScanned(js, i + 1, n - 1);
        if ScanHex(js, i + 1, n - 1).Bad? {
          var h: nat :| i + 1 <= h < i + n && BadDigit(js, i + 1, h);
          assert BadDigit(js, i, h);
        }
      } else {
        assert BadDigit(js, i, i);
      }
    }
  }

  lemma {:induction false} HexRefused(js: string, i: nat, n: nat, h: nat)
    requires i <= |js| && h < i + n && BadDigit(js, i, h)
    ensures ScanHex(js, i, n) == Bad(Inval)
    decreases n
  {
    if i < h {
      assert BadDigit(js, i + 1, h);
      HexRefused(js, i + 1, n - 1, h);
    }
  }

  /** A body that has been read leaves the scan where it ends. */
  lemma {:induction false} BodyPasses(js: string, i: nat, k: nat)
    requires i <= k <= |js| && StringBodyFrom(js[..k], i)
    ensures ScanString(js, i) == ScanString(js, k)
    decreases k - i
  {
    var s := js[..k];
    if i < k {
      if js[i] == '\\' {
        if js[i + 1] == 'u' {
          assert s[i + 2] == js[i + 2] && s[i + 3] == js[i + 3] && s[i + 4] == js[i + 4] && s[i + 5] == js[i + 5];
          FourDigits(js, i + 2);
          BodyPasses(js, i + 6, k);
        } else {
          BodyPasses(js, i + 2, k);
        }
      } else {
        BodyPasses(js, i + 1, k);
      }
    }
  }

  lemma FourDigits(js: string, i: nat)
    requires i + 4 <= |js| && HexDigit(js[i]) && HexDigit(js[i + 1]) && HexDigit(js[i + 2]) && HexDigit(js[i + 3])
    ensures ScanHex(js, i, 4) == Found(i + 4)
  {
    assert ScanHex(js, i + 3, 1) == Found(i + 4);
    assert ScanHex(js, i + 2, 2) == Found(i + 4);
  }

  /** One piece more of a body, at its front. */
  lemma BodyPiece(js: string, i: nat, k: nat, next: nat)
    requires i < next <= k <= |js| && StringBodyFrom(js[..k], next)
    requires if js[i] != '\\' then next == i + 1 && js[i] != '\"' && js[i] != '\0'
             else if i + 1 < k && js[i + 1] == 'u'
             then next == i + 6 && forall j :: i + 2 <= j < next ==> HexDigit(js[j])
             else next == i + 2 && Escapable(js[i + 1])
    ensures StringBodyFrom(js[..k], i)
  {
    var s := js[..k];
    assert forall j :: 0 <= j < k ==> s[j] == js[j];
  }

  /** Where the scan stops, everything before is a body; where it is refused for a character,
      everything before the offence is. */
  lemma {:induction false} ScanIsBody(js: string, i: nat)
    requires i <= |js|
    ensures match ScanString(js, i)
            case Found(at) => StringBodyFrom(js[..at], i)
            case Bad(e) => e == Inval ==> exists k: nat :: i <= k && Offends(js, k) && StringBodyFrom(js[..k], i)
    ensures ScanString(js, i).Bad? ==> ScanString(js, i).error in {Inval, Part}
    decreases |js| - i
  {
    if i == |js| || js[i] == '\0' || js[i] == '\"' {
    } else if js[i] == '\\' && i + 1 < |js| {
      if js[i + 1] == 'u' {
        HexScanned(js, i + 2, 4);
        var h := ScanHex(js, i + 2, 4);
        if h.Bad? {
          var bad: nat :| i + 2 <= bad < i + 6 && BadDigit(js, i + 2, bad);
          assert CutsShort(js, i, bad);
          assert Offends(js, i) && StringBodyFrom(js[..i], i);
        } else {
          ScanIsBody(js, h.at);
          ScanAfter(js, i, h.at);
        }
      } else if IsEscape(js[i + 1]) {
        ScanIsBody(js, i + 2);
        ScanAfter(js, i, i + 2);
      } else {
        assert Offends(js, i) && StringBodyFrom(js[..i], i);
      }
    } else {
      ScanIsBody(js, i + 1);
      ScanAfter(js, i, i + 1);
    }
  }

  /** What holds of the scan from `next` holds from `i`, one piece earlier. */
  lemma ScanAfter(js: string, i: nat, next: nat)
    requires i < next <= |js| && ScanString(js, i) == ScanString(js, next) && js[i] != '\"' && js[i] != '\0'
    requires if js[i] != '\\' || i + 1 == |js| then next == i + 1
             else if js[i + 1] == 'u' then next <= i + 6 && (next < i + 6 ==> next == |js| || js[next] == '\0') &&
               forall j :: i + 2 <= j < next ==> HexDigit(js[j])
             else next == i + 2 && Escapable(js[i + 1])
    requires match ScanString(js, next)
             case Found(at) => StringBodyFrom(js[..at], next)
             case Bad(e) => e == Inval ==> exists k: nat :: next <= k && Offends(js, k) && StringBodyFrom(js[..k], next)
    ensures match ScanString(js, i)
            case Found(at) => StringBodyFrom(js[..at], i)
            case Bad(e) => e == Inval ==> exists k: nat :: i <= k && Offends(js, k) && StringBodyFrom(js[..k], i)
  {
    match ScanString(js, next)
    case Found(at) => BodyPiece(js, i, at, next);
    case Bad(e) =>
      if e == Inval {
        var k: nat :| next <= k && Offends(js, k) && StringBodyFrom(js[..k], next);
        BodyPiece(js, i, k, next);
      }
  }

  /** The scan of a string's inside, exactly: it ends at the first quote no escape takes, is
      refused at the first escape that cannot be completed, and otherwise runs out of text. */
  lemma ScanStringExactly(js: string, i: nat, at: nat)
    requires i <= |js|
    ensures ScanString(js, i) == Found(at) <==>
            i <= at < |js| && js[at] == '\"' && StringBodyFrom(js[..at], i)
    ensures ScanString(js, i) == Bad(Inval) <==>
            exists k: nat :: i <= k && Offends(js, k) && StringBodyFrom(js[..k], i)
    ensures ScanString(js, i).Found? || ScanString(js, i) == Bad(Inval) || ScanString(js, i) == Bad(Part)
  {
    ScanIsBody(js, i);
    if i <= at < |js| && js[at] == '\"' && StringBodyFrom(js[..at], i) {
      BodyPasses(js, i, at);
    }
    if k: nat :| i <= k && Offends(js, k) && StringBodyFrom(js[..k], i) {
      BodyPasses(js, i, k);
      if js[k + 1] == 'u' {
        var h: nat :| CutsShort(js, k, h);
        HexRefused(js, k + 2, 4, h);
      }
    }
  }

  // ---------------------------------------------------------- one primitive

  predicate ScalarRun(js: string, i: nat, k: nat) {
    k <= |js| && forall j :: i <= j < k ==> ScalarChar(js[j])
  }

  predicate EndsScalar(c: char) {
    White(c) || c in {',', ']', '}'}
  }

  /** The scan of a primitive, exactly: it ends at the first white space, comma or closing
      bracket, is refused at the first other character outside printable ASCII, and runs out
      of text at its end or a terminator. */
  lemma {:induction false} ScanPrimitiveExactly(js: string, i: nat, at: nat)
    requires i <= |js|
    ensures ScanPrimitive(js, i) == Found(at) <==> i <= at < |js| && ScalarRun(js, i, at) && EndsScalar(js[at])
    ensures ScanPrimitive(js, i) == Bad(Inval) <==>
            exists k: nat :: i <= k < |js| && ScalarRun(js, i, k) &&
                             js[k] != '\0' && !EndsScalar(js[k]) && !ScalarChar(js[k])
    ensures ScanPrimitive(js, i).Found? || ScanPrimitive(js, i) == Bad(Inval) || ScanPrimitive(js, i) == Bad(Part)
    decreases |js| - i
  {
    if i < |js| && ScalarChar(js[i]) {
      ScanPrimitiveExactly(js, i + 1, at);
      assert ScalarRun(js, i, at) <==> i >= at || ScalarRun(js, i + 1, at);
      if k: nat :| i <= k < |js| && ScalarRun(js, i, k) && js[k] != '\0' && !EndsScalar(js[k]) && !ScalarChar(js[k]) {
        assert ScalarRun(js, i + 1, k);
      }
      if ScanPrimitive(js, i) == Bad(Inval) {
        var k: nat :| i + 1 <= k < |js| && ScalarRun(js, i + 1, k) &&
                      js[k] != '\0' && !EndsScalar(js[k]) && !ScalarChar(js[k]);
        assert ScalarRun(js, i, k);
      }
    } else if i < |js| && js[i] != '\0' && !EndsScalar(js[i]) {
      assert ScalarRun(js, i, i);
    }
  }

  // ------------------------------------------------------ the text accounted

  /** A scalar's span is the inside of a quoted string, or a primitive with what ends it. */
  predicate ScalarOk(js: string, t: Token) {
    && (t.kind == String ==>
          && 0 < t.start <= t.end < |js| && js[t.start - 1] == '\"' && js[t.end] == '\"'
          && StringBody(js[t.start..t.end]))
    && (t.kind == Primitive ==>
          0 <= t.start < t.end < |js| && PrimitiveBody(js[t.start..t.end]) && EndsScalar(js[t.end]))
  }

  /** Position `p` belongs to token `t`: a bracket of its own, a quote or the inside of a
      string, or a character of a primitive. */
  predicate Covers(t: Token, p: nat) {
    if t.Container() then p == t.start || p == t.end - 1
    else if t.kind == String then t.start - 1 <= p <= t.end
    else t.start <= p < t.end
  }

  /** White space, a comma, a colon, or part of a token. */
  predicate Accounted(js: string, ts: seq<Token>, p: nat)
    requires p < |js|
  {
    White(js[p]) || js[p] == ',' || js[p] == ':' || exists i :: 0 <= i < |ts| && Covers(ts[i], p)
  }

  ghost predicate Read(js: string, ts: seq<Token>, pos: nat) {
    && pos <= |js|
    && (forall i :: 0 <= i < |ts| ==> ScalarOk(js, ts[i]))
    && forall p: nat :: p < pos ==> Accounted(js, ts, p)
  }

  /** The tokens before go on covering what they covered; `a` to `b` is covered anew. */
  lemma ReadOn(js: string, ts: seq<Token>, us: seq<Token>, pos: nat, later: nat)
    requires Read(js, ts, pos) && pos <= later <= |js| && |ts| <= |us|
    requires forall i :: 0 <= i < |ts| ==> us[i].kind == ts[i].kind && us[i].start == ts[i].start &&
                                           (us[i].end == ts[i].end || (ts[i].Container() && ts[i].end == -1))
    requires forall i :: |ts| <= i < |us| ==> ScalarOk(js, us[i])
    requires forall p: nat :: pos <= p < later ==> Accounted(js, us, p)
    ensures Read(js, us, later)
  {
    forall i | 0 <= i < |us| ensures ScalarOk(js, us[i]) {
      if i < |ts| {
        assert ScalarOk(js, ts[i]);
      }
    }
    forall p: nat | p < later ensures Accounted(js, us, p) {
      if p < pos {
        assert Accounted(js, ts, p);
        if i :| 0 <= i < |ts| && Covers(ts[i], p) {
          assert Covers(us[i], p);
        }
      }
    }
  }

  lemma {:induction false} BodyFromStart(js: string, a: nat, at: nat, i: nat)
    requires a <= i <= at <= |js| && StringBodyFrom(js[..at], i)
    ensures StringBodyFrom(js[a..at], i - a)
    decreases at - i
  {
    var s, t := js[..at], js[a..at];
    assert forall j :: a <= j < at ==> t[j - a] == s[j];
    if i < at {
      BodyFromStart(js, a, at, if s[i] != '\\' then i + 1 else if s[i + 1] == 'u' then i + 6 else i + 2);
    }
  }

  lemma StringRead(js: string, cap: nat, s: State)
    requires s.Valid(js) && s.pos < |js| && js[s.pos] == '\"' && Read(js, s.toks, s.pos)
    requires StringToken(js, cap, s).Next?
    ensures var t := StringToken(js, cap, s).st; Read(js, t.toks, t.pos)
  {
    var at := ScanString(js, s.pos + 1).at;
    ScanStringExactly(js, s.pos + 1, at);
    BodyFromStart(js, s.pos + 1, at, s.pos + 1);
    var us := StringToken(js, cap, s).st.toks;
    assert us[|s.toks|] == Token(String, s.pos + 1, at, 0);
    forall p: nat | s.pos <= p < at + 1 ensures Accounted(js, us, p) {
      assert Covers(us[|s.toks|], p);
    }
    ReadOn(js, s.toks, us, s.pos, at + 1);
  }

  lemma PrimitiveRead(js: string, cap: nat, s: State)
    requires s.Valid(js) && s.pos < |js| && OpensScalar(js[s.pos]) && Read(js, s.toks, s.pos)
    requires PrimitiveToken(js, cap, s).Next?
    ensures var t := PrimitiveToken(js, cap, s).st; Read(js, t.toks, t.pos)
  {
    var at := ScanPrimitive(js, s.pos).at;
    ScanPrimitiveExactly(js, s.pos, at);
    var body := js[s.pos..at];
    assert forall j :: 0 <= j < |body| ==> body[j] == js[s.pos + j];
    assert s.pos < at;
    var us := PrimitiveToken(js, cap, s).st.toks;
    assert us[|s.toks|] == Token(Primitive, s.pos, at, 0);
    forall p: nat | s.pos <= p < at ensures Accounted(js, us, p) {
      assert Covers(us[|s.toks|], p);
    }
    ReadOn(js, s.toks, us, s.pos, at);
  }

  lemma StepReads(js: string, cap: nat, s: State)
    requires s.Valid(js) && s.pos < |js| && Read(js, s.toks, s.pos)
    requires Step(js, cap, s).Next?
    ensures var t := Step(js, cap, s).st; Read(js, t.toks, t.pos)
  {
    var c, us := js[s.pos], Step(js, cap, s).st.toks;
    if c == '\"' {
      StringRead(js, cap, s);
    } else if c == '{' || c == '[' {
      assert Covers(us[|s.toks|], s.pos);
      ReadOn(js, s.toks, us, s.pos, s.pos + 1);
    } else if c == '}' || c == ']' {
      var i := LastOpen(s.toks);
      BracketRead(js, s, i, us);
    } else if White(c) || c == ':' || c == ',' {
      ReadOn(js, s.toks, us, s.pos, s.pos + 1);
    } else {
      PrimitiveRead(js, cap, s);
    }
  }

  lemma BracketRead(js: string, s: State, i: nat, us: seq<Token>)
    requires s.Valid(js) && s.pos < |js| && Read(js, s.toks, s.pos)
    requires i < |s.toks| && s.toks[i].Open() && us == s.toks[i := s.toks[i].(end := s.pos + 1)]
    ensures Read(js, us, s.pos + 1)
  {
    assert ScalarOk(js, s.toks[i]);
    assert Covers(us[i], s.pos);
    ReadOn(js, s.toks, us, s.pos, s.pos + 1);
  }

  lemma {:induction false} RunReads(js: string, cap: nat, s: State) returns (at: nat)
    requires s.Valid(js) && Read(js, s.toks, s.pos) && Run(js, cap, s).Tokens?
    ensures Read(js, Run(js, cap, s).toks, at) && (at == |js| || js[at] == '\0')
    decreases |js| - s.pos
  {
    at := s.pos;
    if !AtEnd(js, s) {
      StepReads(js, cap, s);
      at := RunReads(js, cap, Step(js, cap, s).st);
    }
  }

  /** In every accepted text, up to its end or a terminator: each string's span is a string
      body between quotes, each primitive's a scalar and what ends it, and there is nothing
      besides the tokens but white space, commas and colons. */
  lemma AcceptedIsRead(js: string, cap: nat) returns (at: nat)
    requires Tokenize(js, cap).Tokens?
    ensures at <= |js| && (at == |js| || js[at] == '\0')
    ensures forall i :: 0 <= i < |Tokenize(js, cap).toks| ==> ScalarOk(js, Tokenize(js, cap).toks[i])
    ensures forall p: nat :: p < at ==> Accounted(js, Tokenize(js, cap).toks, p)
  {
    at := RunReads(js, cap, Start);
  }

  /** An escape that is none refuses the text, whatever the rest. */
  lemma BadEscapeIsRefused(js: string, cap: nat, rest: string)
    requires js == "[\"\\q" + rest && cap >= 2
    ensures Tokenize(js, cap).Failed? && Tokenize(js, cap).error == Inval
  {
    assert js[0] == '[' && js[1] == '\"' && js[2] == '\\' && js[3] == 'q';
    assert js[..2] == "[\"" && StringBodyFrom(js[..2], 2) && Offends(js, 2);
    ScanStringExactly(js, 2, 0);
    var s := Step(js, cap, Start).st;
    assert s == State(1, [Token(Array, 0, -1, 0)], 0);
    assert Step(js, cap, s) == Fail(Inval);
    assert Run(js, cap, s).Failed?;
  }

  // ------------------------------------------------------ what an error means

  lemma {:induction false} HexExtends(js: string, more: string, i: nat, n: nat)
    requires i <= |js|
    ensures match ScanHex(js, i, n)
            case Found(at) => at == i + n ==> ScanHex(js + more, i, n) == Found(at)
            case Bad(e) => ScanHex(js + more, i, n) == Bad(e)
    decreases n
  {
    if n > 0 && i < |js| && js[i] != '\0' && IsHex(js[i]) {
      HexExtends(js, more, i + 1, n - 1);
    }
  }

  /** Text to come changes a scan only when it ran out of text. */
  lemma {:induction false} StringExtends(js: string, more: string, i: nat)
    requires i <= |js| && ScanString(js, i) != Bad(Part)
    ensures ScanString(js + more, i) == ScanString(js, i)
    decreases |js| - i
  {
    if js[i] == '\"' {
    } else if js[i] == '\\' && i + 1 < |js| {
      if IsEscape(js[i + 1]) {
        StringExtends(js, more, i + 2);
      } else if js[i + 1] == 'u' {
        HexExtends(js, more, i + 2, 4);
        var h := ScanHex(js, i + 2, 4);
        if h.Found? {
          StringExtends(js, more, h.at);
        }
      }
    } else {
      StringExtends(js, more, i + 1);
    }
  }

  lemma {:induction false} PrimitiveExtends(js: string, more: string, i: nat)
    requires i <= |js| && ScanPrimitive(js, i) != Bad(Part)
    ensures ScanPrimitive(js + more, i) == ScanPrimitive(js, i)
    decreases |js| - i
  {
    if !EndsPrimitive(js[i]) && PrimitiveChar(js[i]) {
      PrimitiveExtends(js, more, i + 1);
    }
  }

  lemma StepExtends(js: string, more: string, cap: nat, s: State)
    requires s.Valid(js) && s.pos < |js| && Step(js, cap, s) != Fail(Part)
    ensures Step(js + more, cap, s) == Step(js, cap, s)
  {
    var c := js[s.pos];
    assert (js + more)[s.pos] == c;
    if c == '\"' {
      StringExtends(js, more, s.pos + 1);
    } else if StartsPrimitive(c) && ScanPrimitive(js, s.pos) != Bad(Part) {
      PrimitiveExtends(js, more, s.pos);
    }
  }

  /** An error other than an unfinished text is final: whatever text is still to come, it is
      refused in the same place for the same reason. */
  lemma {:induction false} RefusalIsFinal(js: string, more: string, cap: nat, s: State)
    requires s.Valid(js) && Run(js, cap, s).Failed? && Run(js, cap, s).error != Part
    ensures Run(js + more, cap, s) == Run(js, cap, s)
    decreases |js| - s.pos
  {
    assert (js + more)[s.pos] == js[s.pos];
    StepExtends(js, more, cap, s);
    if Step(js, cap, s).Next? {
      RefusalIsFinal(js, more, cap, Step(js, cap, s).st);
    }
  }

  /** At `p` the text ends, or a string begins that no quote ends, or a primitive that nothing
      ends. */
  ghost predicate Unfinished(js: string, p: nat) {
    && p <= |js|
    && (|| p == |js| || js[p] == '\0'
        || (js[p] == '\"' &&
            forall at: nat :: p < at < |js| && js[at] == '\"' ==> !StringBodyFrom(js[..at], p + 1))
        || (OpensScalar(js[p]) &&
            forall at: nat :: p <= at < |js| && EndsScalar(js[at]) ==> !ScalarRun(js, p, at)))
  }

  /** And a text is called unfinished only where it is. */
  lemma {:induction false} PartIsUnfinished(js: string, cap: nat, s: State)
    requires s.Valid(js) && Run(js, cap, s).Failed? && Run(js, cap, s).error == Part
    ensures Unfinished(js, Run(js, cap, s).pos)
    decreases |js| - s.pos
  {
    if !AtEnd(js, s) {
      if Step(js, cap, s).Next? {
        PartIsUnfinished(js, cap, Step(js, cap, s).st);
      } else {
        StepIsUnfinished(js, cap, s);
      }
    }
  }

  lemma StepIsUnfinished(js: string, cap: nat, s: State)
    requires s.Valid(js) && s.pos < |js| && Step(js, cap, s) == Fail(Part)
    ensures Unfinished(js, s.pos)
  {
    if js[s.pos] == '\"' {
      forall at: nat | s.pos < at < |js| && js[at] == '\"' ensures !StringBodyFrom(js[..at], s.pos + 1) {
        ScanStringExactly(js, s.pos + 1, at);
      }
    } else {
      forall at: nat | s.pos <= at < |js| && EndsScalar(js[at]) ensures !ScalarRun(js, s.pos, at) {
        ScanPrimitiveExactly(js, s.pos, at);
      }
    }
  }

  lemma StepWithMoreSlots(js: string, cap: nat, more: nat, s: State)
    requires s.Valid(js) && s.pos < |js| && |s.toks| <= cap <= more
    ensures Step(js, cap, s) != Fail(NoMem) ==> Step(js, more, s) == Step(js, cap, s)
    ensures Step(js, cap, s).Next? ==> |Step(js, cap, s).st.toks| <= cap
    ensures more > cap ==> Step(js, more, s) != Fail(NoMem)
  {
    if js[s.pos] == '\"' {
      ScanStringExactly(js, s.pos + 1, 0);
    } else if OpensScalar(js[s.pos]) {
      ScanPrimitiveExactly(js, s.pos, 0);
    }
  }

  /** The other errors have nothing to do with the slots: with more of them the text is
      refused alike. */
  lemma {:induction false} RefusedWithMoreSlots(js: string, cap: nat, more: nat, s: State)
    requires s.Valid(js) && |s.toks| <= cap <= more && Run(js, cap, s).Failed? && Run(js, cap, s).error != NoMem
    ensures Run(js, more, s) == Run(js, cap, s)
    decreases |js| - s.pos
  {
    if !AtEnd(js, s) {
      StepWithMoreSlots(js, cap, more, s);
      if Step(js, cap, s).Next? {
        RefusedWithMoreSlots(js, cap, more, Step(js, cap, s).st);
      }
    }
  }

  lemma {:induction false} FailsLater(js: string, cap: nat, s: State)
    requires s.Valid(js) && Run(js, cap, s).Failed?
    ensures s.pos <= Run(js, cap, s).pos <= |js|
    decreases |js| - s.pos
  {
    if !AtEnd(js, s) && Step(js, cap, s).Next? {
      FailsLater(js, cap, Step(js, cap, s).st);
    }
  }

  /** Being out of slots ends with one slot more, there at least. */
  lemma {:induction false} OneMoreSlotHelps(js: string, cap: nat, s: State)
    requires s.Valid(js) && |s.toks| <= cap && Run(js, cap, s).Failed? && Run(js, cap, s).error == NoMem
    ensures var r := Run(js, cap + 1, s); r.Failed? && r.error == NoMem ==> r.pos > Run(js, cap, s).pos
    decreases |js| - s.pos
  {
    if !AtEnd(js, s) {
      StepWithMoreSlots(js, cap, cap + 1, s);
      if Step(js, cap, s).Next? {
        OneMoreSlotHelps(js, cap, Step(js, cap, s).st);
      } else {
        if Step(js, cap + 1, s).Next? && Run(js, cap + 1, s).Failed? {
          FailsLater(js, cap + 1, Step(js, cap + 1, s).st);
        }
      }
    }
  }
}
