/**
 Basic authentication: the expected `Authorization` header is built once from the
 credentials and compared with what each request carries. Characters are bytes; a string
 is what precedes its terminator.
 */
module HttpAuth {
  import opened Options

  type Bytes = seq<bv8>

  const PAD: bv8 := 61
  const COLON: bv8 := 58
  const MAX_PLAIN := 128
  /** "Basic " */
  const PREFIX: Bytes := [66, 97, 115, 105, 99, 32]

  // ---------------------------------------------------------------- Base64, section 4 of RFC 4648

  /** The 64 symbols: A to Z, a to z, 0 to 9, + and /. */
  function Symbol(v: bv8): bv8
    requires v < 64
  {
    if v < 26 then v + 65
    else if v < 52 then v + 71
    else if v < 62 then v - 4
    else if v == 62 then 43
    else 47
  }

  function Value(c: bv8): Option<bv8> {
    if 65 <= c <= 90 then Some(c - 65)
    else if 97 <= c <= 122 then Some(c - 71)
    else if 48 <= c <= 57 then Some(c + 4)
    else if c == 43 then Some(62)
    else if c == 47 then Some(63)
    else None
  }

  lemma SymbolsAreDistinct()
    ensures forall v: bv8 :: v < 64 ==> Value(Symbol(v)) == Some(v) && Symbol(v) != PAD && Symbol(v) != 0
    ensures forall c: bv8 :: Value(c).Some? ==> Value(c).value < 64 && Symbol(Value(c).value) == c
  {
  }

  /** Three bytes as one 24-bit number, and its six-bit digits. */
  function Joined(a: bv8, b: bv8, c: bv8): bv32 {
    ((a as bv32) << 16) | ((b as bv32) << 8) | (c as bv32)
  }

  function Low6(v: bv32): (d: bv8)
    ensures d < 64
  {
    (v & 0x3f) as bv8
  }

  function Digit0(v: bv32): (d: bv8) ensures d < 64 { Low6(v >> 18) }
  function Digit1(v: bv32): (d: bv8) ensures d < 64 { Low6(v >> 12) }
  function Digit2(v: bv32): (d: bv8) ensures d < 64 { Low6(v >> 6) }
  function Digit3(v: bv32): (d: bv8) ensures d < 64 { Low6(v) }

  /** Four characters for every three bytes, the last group padded. */
  function Encode(s: Bytes): (t: Bytes)
    ensures |t| == (|s| + 2) / 3 * 4
  {
    if |s| == 0 then []
    else if |s| == 1 then
      var v := Joined(s[0], 0, 0);
      [Symbol(Digit0(v)), Symbol(Digit1(v)), PAD, PAD]
    else if |s| == 2 then
      var v := Joined(s[0], s[1], 0);
      [Symbol(Digit0(v)), Symbol(Digit1(v)), Symbol(Digit2(v)), PAD]
    else
      var v := Joined(s[0], s[1], s[2]);
      [Symbol(Digit0(v)), Symbol(Digit1(v)), Symbol(Digit2(v)), Symbol(Digit3(v))] + Encode(s[3..])
  }

  function First(d0: bv8, d1: bv8): bv8 { (d0 << 2) | (d1 >> 4) }
  function Second(d1: bv8, d2: bv8): bv8 { (d1 << 4) | (d2 >> 2) }
  function Third(d2: bv8, d3: bv8): bv8 { (d2 << 6) | d3 }

  /** The strict decoder: only the alphabet, padding only at the end, and the bits the
      padding leaves over zero. */
  function Decode(t: Bytes): Option<Bytes> {
    if t == [] then Some([])
    else if |t| < 4 || Value(t[0]).None? || Value(t[1]).None? then None
    else
      var d0, d1 := Value(t[0]).value, Value(t[1]).value;
      if t[2] == PAD then
        if |t| == 4 && t[3] == PAD && d1 & 0xf == 0 then Some([First(d0, d1)]) else None
      else if Value(t[2]).None? then None
      else
        var d2 := Value(t[2]).value;
        if t[3] == PAD then
          if |t| == 4 && d2 & 3 == 0 then Some([First(d0, d1), Second(d1, d2)]) else None
        else if Value(t[3]).None? then None
        else
          match Decode(t[4..])
          case None => None
          case Some(rest) => Some([First(d0, d1), Second(d1, d2), Third(d2, Value(t[3]).value)] + rest)
  }

  lemma DigitsGiveBytes(a: bv8, b: bv8, c: bv8)
    ensures var v := Joined(a, b, c);
            && First(Digit0(v), Digit1(v)) == a
            && Second(Digit1(v), Digit2(v)) == b
            && Third(Digit2(v), Digit3(v)) == c
            && (b == 0 && c == 0 ==> Digit1(v) & 0xf == 0)
            && (c == 0 ==> Digit2(v) & 3 == 0)
  {
  }

  lemma BytesGiveDigits(d0: bv8, d1: bv8, d2: bv8, d3: bv8)
    requires d0 < 64 && d1 < 64 && d2 < 64 && d3 < 64
    ensures var v := Joined(First(d0, d1), Second(d1, d2), Third(d2, d3));
            Digit0(v) == d0 && Digit1(v) == d1 && Digit2(v) == d2 && Digit3(v) == d3
    ensures d2 & 3 == 0 ==> Third(d2, 0) == 0
    ensures d1 & 0xf == 0 ==> Second(d1, 0) == 0 && Third(0, 0) == 0
  {
  }

  lemma {:induction false} DecodeEncode(s: Bytes)
    ensures Decode(Encode(s)) == Some(s)
    decreases |s|
  {
    SymbolsAreDistinct();
    if |s| == 1 {
      DigitsGiveBytes(s[0], 0, 0);
      assert s == [s[0]];
    } else if |s| == 2 {
      DigitsGiveBytes(s[0], s[1], 0);
      assert s == [s[0], s[1]];
    } else if |s| > 2 {
      DigitsGiveBytes(s[0], s[1], s[2]);
      DecodeEncode(s[3..]);
      assert s == [s[0], s[1], s[2]] + s[3..];
      assert Encode(s)[4..] == Encode(s[3..]);
    }
  }

  lemma EncodeDecodeOne(t: Bytes)
    requires |t| >= 4 && t[2] == PAD && Decode(t).Some?
    ensures Encode(Decode(t).value) == t
  {
    SymbolsAreDistinct();
    BytesGiveDigits(Value(t[0]).value, Value(t[1]).value, 0, 0);
    assert t == [t[0], t[1], PAD, PAD];
  }

  lemma EncodeDecodeTwo(t: Bytes)
    requires |t| >= 4 && t[2] != PAD && t[3] == PAD && Decode(t).Some?
    ensures Encode(Decode(t).value) == t
  {
    SymbolsAreDistinct();
    BytesGiveDigits(Value(t[0]).value, Value(t[1]).value, Value(t[2]).value, 0);
    assert t == [t[0], t[1], t[2], PAD];
  }

  lemma EncodeGroup(a: bv8, b: bv8, c: bv8, rest: Bytes)
    ensures Encode([a, b, c] + rest) == Group(a, b, c) + Encode(rest)
  {
    assert ([a, b, c] + rest)[3..] == rest;
  }

  lemma GroupDecodes(t: Bytes) returns (a: bv8, b: bv8, c: bv8)
    requires |t| >= 4 && t[2] != PAD && t[3] != PAD && Decode(t).Some?
    ensures Decode(t[4..]).Some? && Decode(t).value == [a, b, c] + Decode(t[4..]).value
    ensures Group(a, b, c) == t[..4]
  {
    SymbolsAreDistinct();
    var d0, d1, d2, d3 := Value(t[0]).value, Value(t[1]).value, Value(t[2]).value, Value(t[3]).value;
    BytesGiveDigits(d0, d1, d2, d3);
    a, b, c := First(d0, d1), Second(d1, d2), Third(d2, d3);
  }

  lemma {:induction false} EncodeDecode(t: Bytes)
    requires Decode(t).Some?
    ensures Encode(Decode(t).value) == t
    decreases |t|
  {
    if t == [] {
    } else if t[2] == PAD {
      EncodeDecodeOne(t);
    } else if t[3] == PAD {
      EncodeDecodeTwo(t);
    } else {
      var a, b, c := GroupDecodes(t);
      EncodeDecode(t[4..]);
      EncodeGroup(a, b, c, Decode(t[4..]).value);
      assert t[..4] + t[4..] == t;
    }
  }

  lemma {:induction false} EncodeHasNoTerminator(s: Bytes)
    ensures 0 !in Encode(s)
    decreases |s|
  {
    SymbolsAreDistinct();
    if |s| > 2 {
      EncodeHasNoTerminator(s[3..]);
    }
  }

  /** The four characters of one full group. */
  function Group(a: bv8, b: bv8, c: bv8): (t: Bytes)
    ensures |t| == 4
  {
    var v := Joined(a, b, c);
    [Symbol(Digit0(v)), Symbol(Digit1(v)), Symbol(Digit2(v)), Symbol(Digit3(v))]
  }

  lemma EncodeOfGroups(s: Bytes, i: nat)
    requires i + 2 < |s|
    ensures Encode(s[i..]) == Group(s[i], s[i + 1], s[i + 2]) + Encode(s[i + 3..])
  {
    assert s[i..][3..] == s[i + 3..];
  }

  method Put(out: array<bv8>, o: nat, c0: bv8, c1: bv8, c2: bv8, c3: bv8)
    requires o + 4 <= out.Length
    modifies out
    ensures out[..o] == old(out[..o]) && out[o..o + 4] == [c0, c1, c2, c3]
  {
    out[o], out[o + 1], out[o + 2], out[o + 3] := c0, c1, c2, c3;
  }

  lemma Extends(before: Bytes, after: Bytes, at: nat, o: nat, quad: Bytes)
    requires at <= o && o + 4 <= |after| && o <= |before| && |quad| == 4
    requires after[..o] == before[..o] && after[o..o + 4] == quad
    ensures after[at..o + 4] == before[at..o] + quad && after[..at] == before[..at]
  {
    assert after[at..o] == after[..o][at..] && before[at..o] == before[..o][at..];
    assert after[..at] == after[..o][..at] && before[..at] == before[..o][..at];
  }

  method AppendGroup(out: array<bv8>, at: nat, o: nat, a: bv8, b: bv8, c: bv8)
    requires at <= o && o + 4 <= out.Length
    modifies out
    ensures out[at..o + 4] == old(out[at..o]) + Group(a, b, c) && out[..at] == old(out[..at])
  {
    var v := Joined(a, b, c);
    Put(out, o, Symbol(Digit0(v)), Symbol(Digit1(v)), Symbol(Digit2(v)), Symbol(Digit3(v)));
    Extends(old(out[..]), out[..], at, o, Group(a, b, c));
  }

  /** The last one or two bytes, padded. */
  method AppendRest(out: array<bv8>, at: nat, o: nat, rest: Bytes)
    requires 1 <= |rest| <= 2 && at <= o && o + 4 <= out.Length
    modifies out
    ensures out[at..o + 4] == old(out[at..o]) + Encode(rest) && out[..at] == old(out[..at])
  {
    if |rest| == 1 {
      var v := Joined(rest[0], 0, 0);
      Put(out, o, Symbol(Digit0(v)), Symbol(Digit1(v)), PAD, PAD);
    } else {
      var v := Joined(rest[0], rest[1], 0);
      Put(out, o, Symbol(Digit0(v)), Symbol(Digit1(v)), Symbol(Digit2(v)), PAD);
    }
    Extends(old(out[..]), out[..], at, o, Encode(rest));
  }

  /** `done` and what is left to encode make up the whole. */
  ghost predicate SoFar(s: Bytes, i: nat, done: Bytes) {
    i <= |s| && done + Encode(s[i..]) == Encode(s)
  }

  lemma OneGroupMore(s: Bytes, i: nat, done: Bytes)
    requires i + 2 < |s| && SoFar(s, i, done)
    ensures SoFar(s, i + 3, done + Group(s[i], s[i + 1], s[i + 2]))
  {
    EncodeOfGroups(s, i);
  }

  lemma SoFarStarts(s: Bytes)
    ensures SoFar(s, 0, [])
  {
    assert s[0..] == s;
  }

  function EncodedSize(n: nat): nat {
    (n + 2) / 3 * 4
  }

  lemma SoFarEnds(s: Bytes, i: nat, done: Bytes)
    requires SoFar(s, i, done)
    ensures |done| + EncodedSize(|s| - i) == EncodedSize(|s|) == |Encode(s)|
    ensures i == |s| ==> done == Encode(s)
  {
    assert i == |s| ==> s[i..] == [];
  }

  lemma RoomForGroup(s: Bytes, i: nat, done: Bytes)
    requires SoFar(s, i, done) && i + 2 < |s|
    ensures |done| + 4 <= EncodedSize(|s|)
  {
    SoFarEnds(s, i, done);
  }

  /** `now` holds what stood before and then the groups of the first `i` bytes. */
  ghost predicate Holds(s: Bytes, i: nat, before: Bytes, now: Bytes) {
    |before| <= |now| && now[..|before|] == before && SoFar(s, i, now[|before|..])
  }

  method NextGroup(s: Bytes, i: nat, out: array<bv8>, at: nat, o: nat, ghost before: Bytes)
    requires i + 2 < |s| && |before| == at <= o <= out.Length && Holds(s, i, before, out[..o])
    requires at + EncodedSize(|s|) < out.Length
    modifies out
    ensures o + 4 <= out.Length && Holds(s, i + 3, before, out[..o + 4])
  {
    assert out[..o][at..] == out[at..o] && out[..o][..at] == out[..at];
    RoomForGroup(s, i, out[at..o]);
    OneGroupMore(s, i, out[at..o]);
    AppendGroup(out, at, o, s[i], s[i + 1], s[i + 2]);
    assert out[..o + 4][at..] == out[at..o + 4] && out[..o + 4][..at] == out[..at];
  }

  method EncodeGroups(s: Bytes, out: array<bv8>, at: nat) returns (o: nat, i: nat)
    requires at + EncodedSize(|s|) < out.Length
    modifies out
    ensures |s| - 2 <= i <= |s| && at <= o <= out.Length && Holds(s, i, old(out[..at]), out[..o])
  {
    o, i := at, 0;
    SoFarStarts(s);
    ghost var before := out[..at];
    while i + 2 < |s|
      invariant i <= |s| && at <= o <= out.Length && Holds(s, i, before, out[..o])
    {
      NextGroup(s, i, out, at, o, before);
      o, i := o + 4, i + 3;
    }
  }

  /** Encodes into `out` from `at` on, with a terminator; refused when it does not fit. */
  method Base64(s: Bytes, out: array<bv8>, at: nat) returns (ok: bool)
    requires at <= out.Length
    modifies out
    ensures ok <==> at + (|s| + 2) / 3 * 4 + 1 <= out.Length
    ensures !ok ==> out[..] == old(out[..])
    ensures ok ==> out[at..at + |Encode(s)|] == Encode(s) && out[at + |Encode(s)|] == 0
    ensures out[..at] == old(out[..at])
  {
    var encoded := (|s| + 2) / 3 * 4;
    if encoded + 1 > out.Length - at {
      return false;
    }
    var o, i := EncodeGroups(s, out, at);
    assert out[..o][at..] == out[at..o] && out[..o][..at] == out[..at];
    SoFarEnds(s, i, out[at..o]);
    if i < |s| {
      AppendRest(out, at, o, s[i..]);
      o := o + 4;
    }
    out[o] := 0;
    return true;
  }

  // ---------------------------------------------------------------- the header

  function Credentials(user: Bytes, password: Bytes): Bytes {
    user + [COLON] + password
  }

  function Header(user: Bytes, password: Bytes): Bytes {
    PREFIX + Encode(Credentials(user, password))
  }

  method ExpectedHeader(user: Bytes, password: Bytes, out: array<bv8>) returns (ok: bool)
    modifies out
    ensures ok <==> |user| + 1 + |password| < 128 && 6 + (|user| + |password| + 3) / 3 * 4 < out.Length
    ensures ok ==> out[..|Header(user, password)|] == Header(user, password) && out[|Header(user, password)|] == 0
  {
    var plain := user + [COLON] + password;
    if |plain| >= MAX_PLAIN {
      return false;
    }
    if |PREFIX| >= out.Length {
      return false;
    }
    forall i | 0 <= i < |PREFIX| {
      out[i] := PREFIX[i];
    }
    ok := Base64(plain, out, |PREFIX|);
    assert out[..|PREFIX|] == PREFIX;
    if ok {
      assert out[..|Header(user, password)|] == out[..|PREFIX|] + out[|PREFIX|..|Header(user, password)|];
    }
  }

  /** Compares every byte of the expected value, wherever the first difference is. */
  method HeaderMatches(header: Bytes, expected: Bytes) returns (r: bool)
    ensures r <==> header == expected
  {
    var diff: bv8 := if |expected| != |header| then 1 else 0;
    var i := 0;
    while i < |expected|
      invariant 0 <= i <= |expected|
      invariant diff == 0 <==> |expected| == |header| && forall k :: 0 <= k < i ==> header[k] == expected[k]
    {
      var h := if i < |header| then header[i] else 0;
      diff := diff | (h ^ expected[i]);
      i := i + 1;
    }
    return diff == 0;
  }

  /** A built header is the expected one exactly when the `user:password` strings agree. */
  lemma HeadersAgree(user: Bytes, password: Bytes, otherUser: Bytes, otherPassword: Bytes)
    ensures Header(user, password) == Header(otherUser, otherPassword) <==>
            Credentials(user, password) == Credentials(otherUser, otherPassword)
    ensures COLON !in user && COLON !in otherUser ==>
              (Header(user, password) == Header(otherUser, otherPassword) <==>
               user == otherUser && password == otherPassword)
  {
    var a, b := Credentials(user, password), Credentials(otherUser, otherPassword);
    assert Header(user, password)[6..] == Encode(a) && Header(otherUser, otherPassword)[6..] == Encode(b);
    DecodeEncode(a);
    DecodeEncode(b);
    if a == b && COLON !in user && COLON !in otherUser {
      assert a[|user|] == COLON && b[|otherUser|] == COLON;
      assert forall k :: 0 <= k < |user| ==> a[k] == user[k];
      assert forall k :: 0 <= k < |otherUser| ==> b[k] == otherUser[k];
      assert |user| == |otherUser|;
      assert user == a[..|user|] && otherUser == b[..|user|];
      assert password == a[|user| + 1..] && otherPassword == b[|user| + 1..];
    }
  }

  /** With a colon in the user's name two different pairs can share a header. */
  lemma ColonInUserIsAmbiguous(u: bv8, v: bv8, w: bv8)
    ensures Header([u, COLON, v], [w]) == Header([u], [v, COLON, w])
  {
    assert Credentials([u, COLON, v], [w]) == Credentials([u], [v, COLON, w]);
  }

  // ---------------------------------------------------------------- published encodings

  /** The alphabet, as table 1 of RFC 4648 lists it: capitals, small letters, digits, each in
      order, then + and /. */
  lemma AlphabetIsPublished(v: bv8)
    requires v < 63
    ensures v !in {25, 51, 61, 62} ==> Symbol(v + 1) == Symbol(v) + 1
    ensures [Symbol(0), Symbol(26), Symbol(52), Symbol(62), Symbol(63)] == [65, 97, 48, 43, 47]
  {
  }

  /** A group is three bytes as one number, highest first, in digits of the alphabet; a shorter
      one stands for zeros, the digits it does not reach written as padding. */
  lemma GroupIsNumber(a: bv8, b: bv8, c: bv8, d0: bv8, d1: bv8, d2: bv8, d3: bv8)
    requires d0 < 64 && d1 < 64 && d2 < 64 && d3 < 64
    requires ((d0 as bv32) << 18) | ((d1 as bv32) << 12) | ((d2 as bv32) << 6) | (d3 as bv32)
             == ((a as bv32) << 16) | ((b as bv32) << 8) | (c as bv32)
    ensures Encode([a, b, c]) == [Symbol(d0), Symbol(d1), Symbol(d2), Symbol(d3)]
    ensures b == 0 && c == 0 ==> Encode([a]) == [Symbol(d0), Symbol(d1), 61, 61]
    ensures c == 0 ==> Encode([a, b]) == [Symbol(d0), Symbol(d1), Symbol(d2), 61]
  {
    DigitsAre(a, b, c, d0, d1, d2, d3);
    EncodeGroup(a, b, c, []);
    assert [a, b, c] == [a, b, c] + [];
  }

  lemma DigitsAre(a: bv8, b: bv8, c: bv8, d0: bv8, d1: bv8, d2: bv8, d3: bv8)
    requires d0 < 64 && d1 < 64 && d2 < 64 && d3 < 64
    requires ((d0 as bv32) << 18) | ((d1 as bv32) << 12) | ((d2 as bv32) << 6) | (d3 as bv32)
             == ((a as bv32) << 16) | ((b as bv32) << 8) | (c as bv32)
    ensures var v := Joined(a, b, c); Digit0(v) == d0 && Digit1(v) == d1 && Digit2(v) == d2 && Digit3(v) == d3
  {
  }

  /** Test vectors of section 10 of RFC 4648: "f", "fo", "foo". */
  lemma PublishedVectors()
    ensures Encode([102]) == [90, 103, 61, 61]
    ensures Encode([102, 111]) == [90, 109, 56, 61]
    ensures Encode([102, 111, 111]) == [90, 109, 57, 118]
  {
  }

  /** The user "a" with the password "b" is "Basic YTpi". */
  lemma KnownHeader()
    ensures Header([97], [98]) == [66, 97, 115, 105, 99, 32, 89, 84, 112, 105]
  {
    assert Credentials([97], [98]) == [97, 58, 98];
    EncodeGroup(97, 58, 98, []);
    assert [97, 58, 98] == [97, 58, 98] + [];
  }
}
