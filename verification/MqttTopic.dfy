/**
 Matching a topic against a subscription filter: the index-moving loop of the component,
 and the level-by-level rules of section 4.7 of MQTT 3.1.1 (without the `$` rule of
 section 4.7.2, which the component does not implement).
 */
module MqttTopic {

  // ---------------------------------------------------------------- levels

  /** The levels of `s` from position `i` on; the first is what is left of the level that
      `i` is in. */
  function Levels(s: string, i: nat): (levels: seq<string>)
    requires i <= |s|
    ensures |levels| > 0
    decreases |s| - i
  {
    if i == |s| then [""]
    else if s[i] == '/' then [""] + Levels(s, i + 1)
    else
      var rest := Levels(s, i + 1);
      [[s[i]] + rest[0]] + rest[1..]
  }

  function Joined(levels: seq<string>): string
    requires |levels| > 0
  {
    if |levels| == 1 then levels[0] else levels[0] + "/" + Joined(levels[1..])
  }

  /** The levels are the parts between the separators. */
  lemma {:induction false} LevelsAreTheParts(s: string, i: nat)
    requires i <= |s|
    ensures Joined(Levels(s, i)) == s[i..]
    ensures forall k :: 0 <= k < |Levels(s, i)| ==> '/' !in Levels(s, i)[k]
    decreases |s| - i
  {
    if i < |s| {
      LevelsAreTheParts(s, i + 1);
      var rest := Levels(s, i + 1);
      assert s[i..] == [s[i]] + s[i + 1..];
      if s[i] == '/' {
        assert ([""] + rest)[1..] == rest;
      } else {
        var levels := [[s[i]] + rest[0]] + rest[1..];
        assert levels[1..] == rest[1..];
        assert '/' !in rest[0] ==> '/' !in levels[0];
        assert forall k :: 1 <= k < |levels| ==> levels[k] == rest[k];
        assert |rest| > 1 ==> levels[0] + "/" + Joined(rest[1..]) == [s[i]] + (rest[0] + "/" + Joined(rest[1..]));
      }
    }
  }

  predicate Plain(level: string) {
    '+' !in level && '#' !in level
  }

  /** A wildcard is a level of its own, and `#` the last one. `inside` says that the first
      level has begun earlier, so that it can no longer be a wildcard. */
  predicate WellFormed(inside: bool, filter: seq<string>)
    decreases |filter|
  {
    filter == [] ||
    (&& (Plain(filter[0]) || (!inside && (filter[0] == "+" || (filter[0] == "#" && |filter| == 1))))
     && WellFormed(false, filter[1..]))
  }

  /** `+` matches one level, `#` all that are left, none included. */
  predicate LevelsMatch(inside: bool, filter: seq<string>, topic: seq<string>)
    decreases |filter|
  {
    if filter == [] then topic == []
    else if !inside && filter[0] == "#" then true
    else
      && topic != []
      && (filter[0] == topic[0] || (!inside && filter[0] == "+"))
      && LevelsMatch(false, filter[1..], topic[1..])
  }

  /** Well-formed, level by level: a `#` only at the end, a `+` anywhere, no other wildcard. */
  lemma {:induction false} WellFormedByLevel(filter: seq<string>)
    ensures WellFormed(false, filter) <==>
            forall i :: 0 <= i < |filter| ==>
              Plain(filter[i]) || filter[i] == "+" || (filter[i] == "#" && i == |filter| - 1)
    decreases |filter|
  {
    if filter != [] {
      WellFormedByLevel(filter[1..]);
      assert forall i :: 1 <= i < |filter| ==> filter[i] == filter[1..][i - 1];
    }
  }

  /** How many levels of the filter have a level of the topic to match. */
  function Fixed(filter: seq<string>): nat {
    if filter != [] && filter[|filter| - 1] == "#" then |filter| - 1 else |filter|
  }

  /** Matching, level by level: before a final `#` and without one alike, each level is the
      topic's own or a `+`; a final `#` stands for any number of further levels, none included,
      and without it the topic has as many levels as the filter. */
  lemma {:induction false} MatchByLevel(filter: seq<string>, topic: seq<string>)
    requires WellFormed(false, filter)
    ensures LevelsMatch(false, filter, topic) <==>
            && (if Fixed(filter) < |filter| then |topic| >= Fixed(filter) else |topic| == Fixed(filter))
            && forall i :: 0 <= i < Fixed(filter) ==> filter[i] == "+" || filter[i] == topic[i]
    decreases |filter|
  {
    if filter != [] && filter[0] != "#" && topic != [] {
      MatchByLevel(filter[1..], topic[1..]);
      assert Fixed(filter) == 1 + Fixed(filter[1..]);
      assert forall i :: 1 <= i < |filter| ==> filter[i] == filter[1..][i - 1];
      assert forall i :: 1 <= i < |topic| ==> topic[i] == topic[1..][i - 1];
    }
  }

  /** The topic's last level is empty and a wildcard of the filter stands at it. */
  predicate WildcardAtEmptyEnd(filter: seq<string>, topic: seq<string>) {
    |topic| > 0 && topic[|topic| - 1] == "" && |filter| >= |topic| && filter[|topic| - 1] in {"+", "#"}
  }

  predicate Verdict(inside: bool, filter: seq<string>, topic: seq<string>) {
    WellFormed(inside, filter) && LevelsMatch(inside, filter, topic) && !WildcardAtEmptyEnd(filter, topic)
  }

  // ---------------------------------------------------------------- the loop

  function LevelEnd(s: string, i: nat): (end: nat)
    requires i <= |s|
    ensures i <= end <= |s| && (end < |s| ==> s[end] == '/')
    decreases |s| - i
  {
    if i == |s| || s[i] == '/' then i else LevelEnd(s, i + 1)
  }

  predicate Inside(filter: string, f: nat)
    requires f <= |filter|
  {
    f > 0 && filter[f - 1] != '/'
  }

  /** What the loop decides from filter position `f` and topic position `t` on. */
  predicate Scan(filter: string, topic: string, f: nat, t: nat)
    requires f <= |filter| && t <= |topic|
    decreases |filter| - f
  {
    if f == |filter| || t == |topic| then
      t == |topic| && (f == |filter| || (|filter| - f == 2 && filter[f] == '/' && filter[f + 1] == '#'))
    else if filter[f] == '#' then f == |filter| - 1 && !Inside(filter, f)
    else if filter[f] == '+' then
      && !Inside(filter, f)
      && (f + 1 == |filter| || filter[f + 1] == '/')
      && var end := LevelEnd(topic, t);
         if f + 1 < |filter| && end < |topic| then Scan(filter, topic, f + 2, end + 1)
         else Scan(filter, topic, f + 1, end)
    else filter[f] == topic[t] && Scan(filter, topic, f + 1, t + 1)
  }

  method Matches(filter: string, topic: string) returns (r: bool)
    ensures r == Verdict(false, Levels(filter, 0), Levels(topic, 0))
  {
    ScanIsVerdict(filter, topic, 0, 0);
    var f, t := 0, 0;
    while f < |filter| && t < |topic|
      invariant f <= |filter| && t <= |topic|
      invariant Scan(filter, topic, f, t) == Scan(filter, topic, 0, 0)
      decreases |filter| - f
    {
      if filter[f] == '#' {
        return f == |filter| - 1 && (f == 0 || filter[f - 1] == '/');
      }
      if filter[f] == '+' {
        if f > 0 && filter[f - 1] != '/' {
          return false;
        }
        if f + 1 < |filter| && filter[f + 1] != '/' {
          return false;
        }
        ghost var from := t;
        while t < |topic| && topic[t] != '/'
          invariant from <= t <= |topic| && LevelEnd(topic, from) == LevelEnd(topic, t)
        {
          t := t + 1;
        }
        f := f + 1;
        if f < |filter| && t < |topic| && filter[f] == '/' && topic[t] == '/' {
          f, t := f + 1, t + 1;
        }
      } else {
        if filter[f] != topic[t] {
          return false;
        }
        f, t := f + 1, t + 1;
      }
    }
    if t == |topic| && |filter| - f == 2 && filter[f] == '/' && filter[f + 1] == '#' {
      return true;
    }
    return f == |filter| && t == |topic|;
  }

  // ---------------------------------------------------------------- the law

  lemma SlashStep(inside: bool, filter: seq<string>, topic: seq<string>)
    requires |filter| > 0 && |topic| > 0
    ensures Verdict(inside, [""] + filter, [""] + topic) == Verdict(false, filter, topic)
  {
    assert ([""] + filter)[1..] == filter && ([""] + topic)[1..] == topic;
    assert |filter| >= |topic| ==> ([""] + filter)[|topic|] == filter[|topic| - 1];
  }

  lemma CharStep(inside: bool, c: char, filter: seq<string>, topic: seq<string>)
    requires c != '+' && c != '#' && |filter| > 0 && |topic| > 0
    ensures Verdict(inside, [[c] + filter[0]] + filter[1..], [[c] + topic[0]] + topic[1..])
            == Verdict(true, filter, topic)
  {
    var fl, tl := [[c] + filter[0]] + filter[1..], [[c] + topic[0]] + topic[1..];
    assert fl[1..] == filter[1..] && tl[1..] == topic[1..];
    assert fl[0][1..] == filter[0] && tl[0][1..] == topic[0];
    assert fl[0] == tl[0] <==> filter[0] == topic[0];
    assert Plain(fl[0]) <==> Plain(filter[0]);
    assert fl[0][0] == c && tl[0][0] == c;
    if |topic| > 1 {
      assert tl[|topic| - 1] == topic[|topic| - 1];
      assert |filter| >= |topic| ==> fl[|topic| - 1] == filter[|topic| - 1];
    }
  }

  lemma FirstLevel(s: string, i: nat)
    requires i < |s|
    ensures s[i] == '/' ==> Levels(s, i)[0] == ""
    ensures s[i] != '/' ==> |Levels(s, i)[0]| > 0 && Levels(s, i)[0][0] == s[i]
  {
  }

  lemma AtLiteral(filter: string, topic: string, f: nat, t: nat)
    requires f < |filter| && t < |topic| && filter[f] != '+' && filter[f] != '#'
    ensures Verdict(Inside(filter, f), Levels(filter, f), Levels(topic, t))
            == (filter[f] == topic[t] && Verdict(Inside(filter, f + 1), Levels(filter, f + 1), Levels(topic, t + 1)))
  {
    FirstLevel(filter, f);
    FirstLevel(topic, t);
    if filter[f] == topic[t] {
      if filter[f] == '/' {
        SlashStep(Inside(filter, f), Levels(filter, f + 1), Levels(topic, t + 1));
      } else {
        CharStep(Inside(filter, f), filter[f], Levels(filter, f + 1), Levels(topic, t + 1));
      }
    } else {
      assert Levels(filter, f)[0] != Levels(topic, t)[0];
    }
  }

  /** One level alone, and what follows it. */
  lemma AloneAt(s: string, i: nat)
    requires i < |s| && s[i] != '/'
    ensures Levels(s, i)[0] == [s[i]] <==> i + 1 == |s| || s[i + 1] == '/'
    ensures i + 1 == |s| ==> Levels(s, i)[1..] == []
    ensures i + 1 < |s| && s[i + 1] == '/' ==> Levels(s, i)[1..] == Levels(s, i + 2)
  {
    if i + 1 < |s| {
      FirstLevel(s, i + 1);
    }
  }

  lemma {:induction false} AfterLevel(s: string, i: nat)
    requires i <= |s|
    ensures var end := LevelEnd(s, i);
            Levels(s, i)[1..] == if end < |s| then Levels(s, end + 1) else []
    decreases |s| - i
  {
    if i < |s| && s[i] != '/' {
      AfterLevel(s, i + 1);
      var rest := Levels(s, i + 1);
      assert ([[s[i]] + rest[0]] + rest[1..])[1..] == rest[1..];
    }
  }

  lemma LastLevelOfTopic(s: string, i: nat)
    requires i < |s| && |Levels(s, i)| == 1
    ensures Levels(s, i)[0] != ""
  {
    FirstLevel(s, i);
  }

  lemma AtHash(filter: string, topic: string, f: nat, t: nat)
    requires f < |filter| && t < |topic| && filter[f] == '#'
    ensures Verdict(Inside(filter, f), Levels(filter, f), Levels(topic, t)) == (f == |filter| - 1 && !Inside(filter, f))
  {
    var fl, tl := Levels(filter, f), Levels(topic, t);
    FirstLevel(filter, f);
    AloneAt(filter, f);
    assert !Plain(fl[0]) by { assert '#' == fl[0][0]; }
    if |tl| == 1 {
      LastLevelOfTopic(topic, t);
      assert tl[|tl| - 1] != "";
    }
    assert fl[0] != "+" by { assert "+"[0] == '+'; }
    if f + 1 == |filter| {
      assert fl == ["#"] && fl[1..] == [];
      assert |fl| == 1 && !(tl[|tl| - 1] == "" && |fl| >= |tl|);
      assert WellFormed(false, fl);
      assert LevelsMatch(false, fl, tl);
    } else {
      assert fl[0] == "#" ==> |fl| > 1;
    }
  }

  lemma OnlyHash(filter: seq<string>)
    requires filter != []
    ensures WellFormed(false, filter) && LevelsMatch(false, filter, []) <==> filter == ["#"]
  {
    assert "#"[0] == '#' && !Plain("#");
    assert |filter| == 1 ==> filter[1..] == [];
  }

  /** A `+` at the start of a level: what is left after it and after the topic's level. */
  lemma PlusStep(filter: seq<string>, topic: seq<string>)
    requires |filter| > 0 && |topic| > 0 && filter[0] == "+" && (|topic| == 1 ==> topic[0] != "")
    ensures Verdict(false, filter, topic)
            == if |topic| == 1 then filter[1..] == [] || filter[1..] == ["#"]
               else Verdict(false, filter[1..], topic[1..])
  {
    var F, T := filter[1..], topic[1..];
    assert "+"[0] == '+' && !Plain("+");
    assert WellFormed(false, filter) == WellFormed(false, F);
    assert LevelsMatch(false, filter, topic) == LevelsMatch(false, F, T);
    if T != [] {
      assert T[|T| - 1] == topic[|topic| - 1];
      assert |F| >= |T| ==> F[|T| - 1] == filter[|topic| - 1];
      assert Verdict(false, filter, topic) == Verdict(false, F, T);
    } else if F != [] {
      OnlyHash(F);
    }
  }

  lemma AtPlus(filter: string, topic: string, f: nat, t: nat)
    requires f < |filter| && t < |topic| && filter[f] == '+'
    requires var end := LevelEnd(topic, t);
             f + 2 <= |filter| && end < |topic| ==>
               Scan(filter, topic, f + 2, end + 1)
               == Verdict(Inside(filter, f + 2), Levels(filter, f + 2), Levels(topic, end + 1))
    ensures Scan(filter, topic, f, t) == Verdict(Inside(filter, f), Levels(filter, f), Levels(topic, t))
  {
    var fl, tl, end := Levels(filter, f), Levels(topic, t), LevelEnd(topic, t);
    FirstLevel(filter, f);
    AloneAt(filter, f);
    AfterLevel(topic, t);
    assert !Plain(fl[0]) by { assert '+' == fl[0][0]; }
    if !Inside(filter, f) && (f + 1 == |filter| || filter[f + 1] == '/') {
      if |tl| == 1 {
        LastLevelOfTopic(topic, t);
        if f + 1 < |filter| {
          HashAlone(filter, f + 2);
        }
      }
      PlusStep(fl, tl);
    }
  }

  lemma HashAlone(filter: string, i: nat)
    requires i <= |filter|
    ensures Levels(filter, i) == ["#"] <==> |filter| - i == 1 && filter[i] == '#'
  {
    if i < |filter| {
      FirstLevel(filter, i);
      if filter[i] == '#' {
        AloneAt(filter, i);
      }
    }
  }

  lemma AtAnEnd(filter: string, topic: string, f: nat, t: nat)
    requires f <= |filter| && t <= |topic| && (f == |filter| || t == |topic|)
    ensures Scan(filter, topic, f, t) == Verdict(Inside(filter, f), Levels(filter, f), Levels(topic, t))
  {
    var fl, tl := Levels(filter, f), Levels(topic, t);
    if f == |filter| {
      assert fl == [""] && fl[1..] == [];
      if t < |topic| {
        FirstLevel(topic, t);
        if topic[t] == '/' {
          assert tl[1..] == Levels(topic, t + 1);
        }
        assert !LevelsMatch(Inside(filter, f), fl, tl);
      } else {
        assert tl == [""] && tl[1..] == [] && |"+"| == 1 && |"#"| == 1;
        assert LevelsMatch(Inside(filter, f), fl, tl) && WellFormed(Inside(filter, f), fl);
      }
    } else {
      FirstLevel(filter, f);
      if filter[f] == '/' {
        var F := Levels(filter, f + 1);
        assert fl[1..] == F && tl == [""] && tl[1..] == [] && |"+"| == 1 && |"#"| == 1;
        assert Verdict(Inside(filter, f), fl, tl) == (WellFormed(false, F) && LevelsMatch(false, F, []));
        OnlyHash(F);
        HashAlone(filter, f + 1);
      }
    }
  }

  lemma {:induction false} ScanIsVerdict(filter: string, topic: string, f: nat, t: nat)
    requires f <= |filter| && t <= |topic|
    ensures Scan(filter, topic, f, t) == Verdict(Inside(filter, f), Levels(filter, f), Levels(topic, t))
    decreases |filter| - f
  {
    if f == |filter| || t == |topic| {
      AtAnEnd(filter, topic, f, t);
    } else if filter[f] == '#' {
      AtHash(filter, topic, f, t);
    } else if filter[f] == '+' {
      var end := LevelEnd(topic, t);
      if f + 2 <= |filter| && end < |topic| {
        ScanIsVerdict(filter, topic, f + 2, end + 1);
      }
      AtPlus(filter, topic, f, t);
    } else {
      if filter[f] == topic[t] {
        ScanIsVerdict(filter, topic, f + 1, t + 1);
      }
      AtLiteral(filter, topic, f, t);
    }
  }

  /** For every filter and topic: the component accepts exactly the well-formed filters that
      match level by level, except where a wildcard stands at an empty last topic level. */
  lemma MatchesMeansLevels(filter: string, topic: string)
    ensures Scan(filter, topic, 0, 0) <==>
            && WellFormed(false, Levels(filter, 0))
            && LevelsMatch(false, Levels(filter, 0), Levels(topic, 0))
            && !WildcardAtEmptyEnd(Levels(filter, 0), Levels(topic, 0))
  {
    ScanIsVerdict(filter, topic, 0, 0);
  }

  lemma OrdinaryTopics(filter: string, topic: string)
    requires topic != "" && topic[|topic| - 1] != '/'
    ensures Scan(filter, topic, 0, 0) <==>
            WellFormed(false, Levels(filter, 0)) && LevelsMatch(false, Levels(filter, 0), Levels(topic, 0))
  {
    ScanIsVerdict(filter, topic, 0, 0);
    LastLevelFilled(topic, 0);
  }

  lemma {:induction false} LastLevelFilled(s: string, i: nat)
    requires i < |s| && s[|s| - 1] != '/'
    ensures var levels := Levels(s, i); levels[|levels| - 1] != ""
    decreases |s| - i
  {
    FirstLevel(s, i);
    if i + 1 < |s| {
      LastLevelFilled(s, i + 1);
    }
  }

  /** Section 4.7.2: a filter that begins with a wildcard does not match a topic that begins
      with `$`. */
  predicate Reserved(filter: string, topic: string) {
    filter != "" && filter[0] in {'+', '#'} && topic != "" && topic[0] == '$'
  }

  /** Sections 4.7.1 and 4.7.2 together. */
  predicate Standard(filter: string, topic: string) {
    && WellFormed(false, Levels(filter, 0)) && LevelsMatch(false, Levels(filter, 0), Levels(topic, 0))
    && !Reserved(filter, topic)
  }

  /** The component accepts what the standard does and, beyond it, reserved topics by a
      leading wildcard; it misses wildcards at an empty last level. Nothing else differs. */
  lemma AgreesWithStandard(filter: string, topic: string)
    ensures (Scan(filter, topic, 0, 0) <==> Standard(filter, topic)) <==>
            && !(Scan(filter, topic, 0, 0) && Reserved(filter, topic))
            && !(Standard(filter, topic) && WildcardAtEmptyEnd(Levels(filter, 0), Levels(topic, 0)))
    ensures topic != "" && topic[|topic| - 1] != '/' && !Reserved(filter, topic) ==>
            (Scan(filter, topic, 0, 0) <==> Standard(filter, topic))
  {
    MatchesMeansLevels(filter, topic);
    if topic != "" && topic[|topic| - 1] != '/' {
      OrdinaryTopics(filter, topic);
    }
  }

  /** Section 4.7.2's own example: `#` takes `$SYS/x`, which the standard keeps from it. */
  lemma ReservedIsTaken()
    ensures Scan("#", "$SYS/x", 0, 0) && Reserved("#", "$SYS/x") && !Standard("#", "$SYS/x")
  {
    assert !Inside("#", 0);
  }

  /** Section 4.7.1.3 has `a/+` match the empty level of `a/`; the component does not. */
  lemma EmptyLastLevelIsMissed()
    ensures LevelsMatch(false, Levels("a/+", 0), Levels("a/", 0)) && WellFormed(false, Levels("a/+", 0))
    ensures !Scan("a/+", "a/", 0, 0)
  {
    var filter, topic := "a/+", "a/";
    assert ['+'] + "" == "+" && ['a'] + "" == "a";
    assert Levels(filter, 3) == [""] && Levels(topic, 2) == [""];
    assert Levels(filter, 2) == ["+"] && Levels(topic, 1) == [""] + [""];
    assert Levels(filter, 1) == [""] + ["+"];
    assert Levels(filter, 0) == ["a", "+"] && Levels(topic, 0) == ["a", ""];
    assert ["a", "+"][1..] == ["+"] && ["a", ""][1..] == [""] && ["+"][1..] == [] && [""][1..] == [];
    assert "+"[0] == '+' && "#"[0] == '#';
    MatchesMeansLevels(filter, topic);
  }
}
