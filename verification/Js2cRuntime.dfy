/**
 The cursor runtime the generated parsers share: reading the current token, comparing a
 key, and skipping a value by the sizes of its tokens.
 */
module Js2cRuntime {
  import opened Options
  import opened Jsmn
  import opened JsmnForest

  /** The text a token spans. */
  function TokenText(js: string, t: Token): string {
    if 0 <= t.start <= t.end <= |js| then js[t.start..t.end] else ""
  }

  predicate TokenIs(js: string, t: Token, name: string) {
    t.kind == String && TokenText(js, t) == name
  }

  /** Skip `need` values: each token adds its children to what is still to be skipped.
      `None` would be a read past the last token. */
  function Skip(ts: seq<Token>, cur: nat, need: nat): (r: Option<nat>)
    ensures r.Some? ==> cur <= r.value && need <= r.value - cur && (need > 0 ==> r.value <= |ts|)
    decreases |ts| - cur
  {
    if need == 0 then Some(cur)
    else if cur >= |ts| then None
    else Skip(ts, cur + 1, need - 1 + ts[cur].size)
  }

  class ParseState {
    const json: string
    /** The tokens the tokenizer filled in; the buffer they sit in has `maxTokens` slots. */
    const tokens: seq<Token>
    const maxTokens: nat
    var current: nat

    constructor (json: string, tokens: seq<Token>, maxTokens: nat)
      ensures this.json == json && this.tokens == tokens && this.maxTokens == maxTokens && current == 0
    {
      this.json, this.tokens, this.maxTokens, current := json, tokens, maxTokens, 0;
    }

    /** The buffer holds the tokens, and a token index fits the counters in use. */
    predicate Valid() {
      |tokens| <= maxTokens && |tokens| < 0x1_0000_0000
    }

    /** builtin_skip: the counter is 32 bits wide; `err` is the branch that should never be taken. */
    method SkipValue() returns (err: bool)
      requires Valid() && Skip(tokens, current, 1).Some?
      modifies this`current
      ensures !err && current == Skip(tokens, old(current), 1).value
    {
      var skipTokens: int := 1;
      while skipTokens > 0
        invariant 0 <= skipTokens <= |tokens| - current || skipTokens == 0
        invariant Skip(tokens, old(current), 1) == Skip(tokens, current, skipTokens)
        decreases if skipTokens > 0 then |tokens| - current else -1
      {
        skipTokens := (skipTokens + tokens[current].size) % 0x1_0000_0000;
        if current >= maxTokens {
          return true;
        }
        current := current + 1;
        skipTokens := (skipTokens - 1) % 0x1_0000_0000;
      }
      return false;
    }
  }

  // ------------------------------------------------------- skipping a forest

  lemma {:induction false} FlatAppend(a: seq<Tree>, b: seq<Tree>)
    ensures Flat(a + b) == Flat(a) + Flat(b)
    decreases |b|
  {
    if b == [] {
      assert a + b == a;
    } else {
      var front := b[..|b| - 1];
      FlatAppend(a, front);
      assert b == front + [b[|b| - 1]];
      assert a + b == (a + front) + [b[|b| - 1]];
      FlatSnoc(a + front, b[|b| - 1]);
      FlatSnoc(front, b[|b| - 1]);
    }
  }

  /** The tokens from `cur` on are exactly the trees `g`. */
  predicate Rest(ts: seq<Token>, cur: nat, g: seq<Tree>) {
    cur <= |ts| && ts[cur..] == Flat(g)
  }

  /** Past one token, its children come first. */
  lemma RestNext(ts: seq<Token>, cur: nat, g: seq<Tree>)
    requires Rest(ts, cur, g) && g != []
    ensures cur < |ts| && ts[cur] == g[0].Head()
    ensures Rest(ts, cur + 1, g[0].kids + g[1..])
  {
    var one := [g[0]];
    assert g == one + g[1..];
    FlatAppend(one, g[1..]);
    FlatSnoc([], g[0]);
    assert [] + one == one;
    assert Flat(one) == [g[0].Head()] + Flat(g[0].kids);
    FlatAppend(g[0].kids, g[1..]);
    assert ts[cur..][0] == ts[cur] && ts[cur..][1..] == ts[cur + 1..];
    assert Flat(g) == [g[0].Head()] + (Flat(g[0].kids) + Flat(g[1..]));
  }

  /** Skipping k values of a forest skips exactly k trees. */
  lemma {:induction false} SkipTrees(ts: seq<Token>, cur: nat, g: seq<Tree>, k: nat)
    requires Rest(ts, cur, g) && k <= |g|
    ensures Skip(ts, cur, k).Some? && Rest(ts, Skip(ts, cur, k).value, g[k..])
    decreases |ts| - cur
  {
    if k > 0 {
      RestNext(ts, cur, g);
      var h := g[0].kids + g[1..];
      SkipTrees(ts, cur + 1, h, k - 1 + |g[0].kids|);
      assert h[k - 1 + |g[0].kids|..] == g[k..];
    }
  }

  /** Every token of a forest starts a tree of its own. */
  lemma {:induction false} TreeAt(ts: seq<Token>, cur: nat, g: seq<Tree>, i: nat) returns (h: seq<Tree>)
    requires Rest(ts, cur, g) && cur <= i < |ts|
    ensures Rest(ts, i, h) && h != []
    decreases i - cur
  {
    assert |ts[cur..]| > 0;
    if i == cur {
      h := g;
    } else {
      RestNext(ts, cur, g);
      h := TreeAt(ts, cur + 1, g[0].kids + g[1..], i);
    }
  }

  /** The token at `i` begins a tree of the forest, of `n` tokens. */
  ghost predicate TreeOf(ts: seq<Token>, i: nat, n: nat)
    requires i <= |ts|
  {
    exists h: seq<Tree> :: h != [] && ts[i..] == Flat(h) && n == |FlatTree(h[0])|
  }

  /** On every accepted text, a skip from any token ends after exactly that token's tree:
      it never reads past the last token. */
  lemma SkipIsTotal(js: string, cap: nat, ts: seq<Token>, i: nat)
    requires Tokenize(js, cap) == Tokens(ts) && i < |ts|
    ensures Skip(ts, i, 1).Some? && i < Skip(ts, i, 1).value <= |ts|
    ensures TreeOf(ts, i, Skip(ts, i, 1).value - i)
  {
    var f := AcceptedIsForest(js, cap);
    assert ts[0..] == ts;
    var h := TreeAt(ts, 0, f, i);
    SkipTrees(ts, i, h, 1);
    assert h == [h[0]] + h[1..];
    FlatAppend([h[0]], h[1..]);
    FlatSnoc([], h[0]);
    assert [] + [h[0]] == [h[0]];
    assert |ts[Skip(ts, i, 1).value..]| == |Flat(h[1..])|;
  }
}
