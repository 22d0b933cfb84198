/**
 What every accepted text guarantees, well-formed JSON or not: the sizes of the tokens
 encode a forest in preorder, and bracket spans nest with matching brackets.
 */
module JsmnForest {
  import opened Jsmn

  /** A token with its children. */
  datatype Tree = Tree(kind: Kind, start: int, end: int, kids: seq<Tree>) {
    function Head(): Token {
      Token(kind, start, end, |kids|)
    }
  }

  /** Preorder flattening: every token's size is the number of its children. */
  function Flat(f: seq<Tree>): seq<Token>
    decreases f, 0
  {
    if f == [] then [] else Flat(f[..|f| - 1]) + FlatTree(f[|f| - 1])
  }

  function FlatTree(t: Tree): (ts: seq<Token>)
    ensures |ts| >= 1 && ts[0] == t.Head()
    decreases t, 1
  {
    [t.Head()] + Flat(t.kids)
  }

  // ---------------------------------------------------------- the right spine

  /** The last tree, its last child, that one's last child, and so on. */
  function Depth(f: seq<Tree>): nat {
    if f == [] then 0 else 1 + Depth(f[|f| - 1].kids)
  }

  /** The index, in the flattening, of the spine node at depth `d`; -1 above the roots. */
  function Spine(f: seq<Tree>, d: nat): (i: int)
    requires d <= Depth(f)
    ensures -1 <= i < |Flat(f)|
    ensures d > 0 ==> i >= 0
    decreases d
  {
    if d == 0 then -1
    else |Flat(f[..|f| - 1])| + 1 + Spine(f[|f| - 1].kids, d - 1)
  }

  /** One more child, on the right, for the spine node at depth `d`. */
  function AddAt(f: seq<Tree>, d: nat, t: Tree): seq<Tree>
    requires d <= Depth(f)
    decreases d
  {
    if d == 0 then f + [t]
    else
      var last := f[|f| - 1];
      f[..|f| - 1] + [last.(kids := AddAt(last.kids, d - 1, t))]
  }

  function CloseAt(f: seq<Tree>, d: nat, e: int): (r: seq<Tree>)
    requires 0 < d <= Depth(f)
    ensures |r| == |f|
    decreases d
  {
    var last := f[|f| - 1];
    f[..|f| - 1] + [if d == 1 then last.(end := e) else last.(kids := CloseAt(last.kids, d - 1, e))]
  }

  lemma FlatSnoc(f: seq<Tree>, t: Tree)
    ensures Flat(f + [t]) == Flat(f) + FlatTree(t)
  {
    assert (f + [t])[..|f|] == f;
  }

  lemma FlatLast(f: seq<Tree>, last: Tree, front: seq<Token>, kids: seq<Token>)
    requires f != [] && last == f[|f| - 1] && front == Flat(f[..|f| - 1]) && kids == Flat(last.kids)
    ensures Flat(f) == front + ([last.Head()] + kids)
  {
  }

  lemma {:induction false} SpineIncreases(f: seq<Tree>, d: nat, e: nat)
    requires d < e <= Depth(f)
    ensures Spine(f, d) < Spine(f, e)
    decreases d
  {
    if d > 0 {
      SpineIncreases(f[|f| - 1].kids, d - 1, e - 1);
    }
  }

  lemma {:induction false} SpineEnd(f: seq<Tree>)
    ensures Spine(f, Depth(f)) == |Flat(f)| - 1
    decreases f
  {
    if f != [] {
      SpineEnd(f[|f| - 1].kids);
    }
  }

  lemma {:induction false} AddFlat(f: seq<Tree>, d: nat, t: Tree)
    requires d <= Depth(f) && t.kids == []
    ensures Flat(AddAt(f, d, t)) == Bump(Flat(f), Spine(f, d)) + [t.Head()]
    decreases d
  {
    if d == 0 {
      FlatSnoc(f, t);
    } else {
      AddFlat(f[|f| - 1].kids, d - 1, t);
      AddFlatBelow(f, d, t, f[|f| - 1], Flat(f[..|f| - 1]));
    }
  }

  /** The last root's head once something is added below it: counted when it is the parent. */
  function Counted(head: Token, i: int): Token {
    if i == -1 then head.(size := head.size + 1) else head
  }

  lemma AddFlatBelow(f: seq<Tree>, d: nat, t: Tree, last: Tree, front: seq<Token>)
    requires 0 < d <= Depth(f) && last == f[|f| - 1] && front == Flat(f[..|f| - 1])
    requires Flat(AddAt(last.kids, d - 1, t)) == Bump(Flat(last.kids), Spine(last.kids, d - 1)) + [t.Head()]
    ensures Flat(AddAt(f, d, t)) == Bump(Flat(f), Spine(f, d)) + [t.Head()]
  {
    AddFlatParts(f, d, t, last, front, Flat(last.kids), Spine(last.kids, d - 1), Flat(AddAt(last.kids, d - 1, t)));
  }

  lemma AddFlatParts(
    f: seq<Tree>, d: nat, t: Tree, last: Tree, front: seq<Token>, kids: seq<Token>, i: int, below: seq<Token>)
    requires 0 < d <= Depth(f) && last == f[|f| - 1] && front == Flat(f[..|f| - 1])
    requires kids == Flat(last.kids) && i == Spine(last.kids, d - 1) && below == Flat(AddAt(last.kids, d - 1, t))
    requires below == Bump(kids, i) + [t.Head()]
    ensures Flat(AddAt(f, d, t)) == Bump(Flat(f), Spine(f, d)) + [t.Head()]
  {
    AddLast(f, d, t, last, front, i, below);
    FlatLast(f, last, front, kids);
    BumpInside(Flat(f), front, last.Head(), kids, i, t.Head(), below, Flat(AddAt(f, d, t)), Spine(f, d));
  }

  /** Adding below the roots touches the last tree only: its kids, and its size at depth 1. */
  lemma AddLast(f: seq<Tree>, d: nat, t: Tree, last: Tree, front: seq<Token>, i: int, below: seq<Token>)
    requires 0 < d <= Depth(f) && last == f[|f| - 1] && front == Flat(f[..|f| - 1])
    requires i == Spine(last.kids, d - 1) && below == Flat(AddAt(last.kids, d - 1, t))
    ensures Flat(AddAt(f, d, t)) == front + ([Counted(last.Head(), i)] + below)
    ensures Spine(f, d) == |front| + 1 + i
  {
    var more := AddAt(last.kids, d - 1, t);
    FlatSnoc(f[..|f| - 1], last.(kids := more));
    assert |more| == if d == 1 then |last.kids| + 1 else |last.kids|;
  }

  /** A bump below the head of the last tree, or at the head itself. */
  lemma BumpInside(
    whole: seq<Token>, front: seq<Token>, head: Token, kids: seq<Token>, i: int, more: Token, below: seq<Token>,
    after: seq<Token>, at: int)
    requires -1 <= i < |kids| && whole == front + ([head] + kids) && below == Bump(kids, i) + [more]
    requires after == front + ([Counted(head, i)] + below) && at == |front| + 1 + i
    ensures after == Bump(whole, at) + [more]
  {
  }

  lemma AddUnfold(f: seq<Tree>, d: nat, t: Tree)
    requires d <= Depth(f)
    ensures var r := AddAt(f, d, t);
            if d == 0 then |r| == |f| + 1 && r[..|r| - 1] == f && r[|r| - 1] == t
            else |r| == |f| && r[..|r| - 1] == f[..|f| - 1] &&
                 r[|r| - 1] == f[|f| - 1].(kids := AddAt(f[|f| - 1].kids, d - 1, t))
  {
  }

  lemma {:induction false} AddDepth(f: seq<Tree>, d: nat, t: Tree)
    requires d <= Depth(f) && t.kids == []
    ensures Depth(AddAt(f, d, t)) == d + 1
    decreases d
  {
    AddUnfold(f, d, t);
    if d > 0 {
      AddDepth(f[|f| - 1].kids, d - 1, t);
    }
  }

  /** Adding a node leaves the spine above it in place; the node itself comes last. */
  lemma {:induction false} AddSpine(f: seq<Tree>, d: nat, t: Tree, k: nat)
    requires d <= Depth(f) && t.kids == [] && k <= d + 1
    ensures k <= Depth(AddAt(f, d, t))
    ensures Spine(AddAt(f, d, t), k) == if k <= d then Spine(f, k) else |Flat(f)|
    decreases d
  {
    AddDepth(f, d, t);
    if d == 0 {
      AddUnfold(f, d, t);
    } else if k > 0 {
      var last := f[|f| - 1];
      AddDepth(last.kids, d - 1, t);
      AddSpine(last.kids, d - 1, t, k - 1);
      AddSpineBelow(f, d, t, k);
    }
  }

  lemma AddSpineBelow(f: seq<Tree>, d: nat, t: Tree, k: nat)
    requires 0 < d <= Depth(f) && 0 < k <= d + 1
    requires Depth(AddAt(f, d, t)) == d + 1 && Depth(AddAt(f[|f| - 1].kids, d - 1, t)) == d
    requires var kids := f[|f| - 1].kids;
             Spine(AddAt(kids, d - 1, t), k - 1) == if k <= d then Spine(kids, k - 1) else |Flat(kids)|
    ensures Spine(AddAt(f, d, t), k) == if k <= d then Spine(f, k) else |Flat(f)|
  {
    AddUnfold(f, d, t);
    FlatLast(f, f[|f| - 1], Flat(f[..|f| - 1]), Flat(f[|f| - 1].kids));
    var r := AddAt(f, d, t);
    assert Spine(r, k) == |Flat(f[..|f| - 1])| + 1 + Spine(r[|r| - 1].kids, k - 1);
  }

  lemma {:induction false} CloseFlat(f: seq<Tree>, d: nat, e: int)
    requires 0 < d <= Depth(f)
    ensures var i := Spine(f, d); Flat(CloseAt(f, d, e)) == Flat(f)[i := Flat(f)[i].(end := e)]
    decreases d
  {
    var front, last := f[..|f| - 1], f[|f| - 1];
    FlatLast(f, f[|f| - 1], Flat(f[..|f| - 1]), Flat(f[|f| - 1].kids));
    if d == 1 {
      FlatSnoc(front, last.(end := e));
    } else {
      CloseFlat(last.kids, d - 1, e);
      FlatSnoc(front, last.(kids := CloseAt(last.kids, d - 1, e)));
    }
  }

  lemma {:induction false} CloseSpine(f: seq<Tree>, d: nat, e: int, k: nat)
    requires 0 < d <= Depth(f) && k <= Depth(f)
    ensures Depth(CloseAt(f, d, e)) == Depth(f)
    ensures Spine(CloseAt(f, d, e), k) == Spine(f, k)
    decreases d
  {
    var front, last := f[..|f| - 1], f[|f| - 1];
    var r := CloseAt(f, d, e);
    assert r[..|r| - 1] == front;
    if d > 1 {
      CloseSpine(last.kids, d - 1, e, if k == 0 then 0 else k - 1);
    }
  }

  // ------------------------------------------------------- the run's invariant

  ghost predicate OnSpine(f: seq<Tree>, d: nat, i: int)
    requires d <= Depth(f)
  {
    exists k: nat :: k <= d && i == Spine(f, k)
  }

  /** The tokens are a forest; the superior token and every open bracket are on its right
      spine, no open bracket below the superior token. */
  ghost predicate Shape(s: State, f: seq<Tree>, d: nat) {
    && s.toks == Flat(f) && d <= Depth(f) && s.super == Spine(f, d)
    && forall i :: 0 <= i < |s.toks| && s.toks[i].Open() ==> OnSpine(f, d, i)
  }

  /** A new token under the superior one; `d2` is where the superior token is afterwards. */
  lemma AddShape(s: State, f: seq<Tree>, d: nat, t: Tree, down: bool, pos: nat) returns (g: seq<Tree>, d2: nat)
    requires Shape(s, f, d) && t.kids == [] && (!down ==> !t.Head().Open())
    ensures d2 == (if down then d + 1 else d) && g == AddAt(f, d, t)
    ensures Shape(State(pos, Bump(s.toks, s.super) + [t.Head()], if down then |s.toks| else s.super), g, d2)
  {
    g := AddAt(f, d, t);
    d2 := if down then d + 1 else d;
    AddFlat(f, d, t);
    AddSpine(f, d, t, d2);
    var ts := Bump(s.toks, s.super) + [t.Head()];
    forall i | 0 <= i < |ts| && ts[i].Open() ensures OnSpine(g, d2, i) {
      if i < |s.toks| {
        assert s.toks[i].Open();
        var k: nat :| k <= d && i == Spine(f, k);
        AddSpine(f, d, t, k);
      } else {
        AddSpine(f, d, t, d + 1);
        assert i == Spine(g, d + 1);
      }
    }
  }

  // ------------------------------------------------------- what may be where

  /** What strict mode lets be a child: in an object only strings, and of a key no primitive
      after the first child. */
  predicate MayFollow(parent: Token, kind: Kind) {
    (parent.kind == Object ==> kind == String) && (parent.kind == String && kind == Primitive ==> parent.size == 0)
  }

  predicate StrictTree(t: Tree)
    decreases t, 1
  {
    && (t.kind == Object ==> forall i :: 0 <= i < |t.kids| ==> t.kids[i].kind == String)
    && (t.kind == String ==> forall i :: 1 <= i < |t.kids| ==> t.kids[i].kind != Primitive)
    && StrictForest(t.kids)
  }

  predicate StrictForest(f: seq<Tree>)
    decreases f, 0
  {
    forall i :: 0 <= i < |f| ==> StrictTree(f[i])
  }

  lemma {:induction false} SpineNode(f: seq<Tree>, d: nat)
    requires 0 < d <= Depth(f)
    ensures var last := f[|f| - 1];
            Flat(f)[Spine(f, d)] == if d == 1 then last.Head() else Flat(last.kids)[Spine(last.kids, d - 1)]
  {
    var last := f[|f| - 1];
    FlatLast(f, last, Flat(f[..|f| - 1]), Flat(last.kids));
  }

  /** A child that may follow keeps everything strict. */
  lemma {:induction false} AddStrict(f: seq<Tree>, d: nat, t: Tree)
    requires d <= Depth(f) && t.kids == [] && StrictForest(f)
    requires d > 0 ==> MayFollow(Flat(f)[Spine(f, d)], t.kind)
    ensures StrictForest(AddAt(f, d, t))
    decreases d
  {
    AddUnfold(f, d, t);
    var r := AddAt(f, d, t);
    assert StrictTree(t);
    if d > 0 {
      SpineNode(f, d);
      var last := f[|f| - 1];
      AddStrict(last.kids, d - 1, t);
      AddUnfold(last.kids, d - 1, t);
      AddedKids(last, AddAt(last.kids, d - 1, t), d, t);
      forall i | 0 <= i < |r| ensures StrictTree(r[i]) {
        if i < |r| - 1 {
          assert r[i] == r[..|r| - 1][i] == f[i];
        }
      }
    } else {
      forall i | 0 <= i < |r| ensures StrictTree(r[i]) {
        if i < |f| {
          assert r[i] == r[..|r| - 1][i];
        }
      }
    }
  }

  /** The kids keep their kinds, apart from one more at the root of the addition. */
  lemma AddedKids(last: Tree, more: seq<Tree>, d: nat, t: Tree)
    requires d > 0 && StrictTree(last) && StrictForest(more)
    requires if d == 1
             then MayFollow(last.Head(), t.kind) && |more| == |last.kids| + 1 && more[..|last.kids|] == last.kids
                            && more[|last.kids|] == t
             else |more| == |last.kids| && forall i :: 0 <= i < |more| ==> more[i].kind == last.kids[i].kind
    ensures StrictTree(last.(kids := more))
  {
    forall i | 0 <= i < |last.kids| ensures more[i].kind == last.kids[i].kind {
      if d == 1 {
        assert more[i] == more[..|last.kids|][i];
      }
    }
  }

  lemma {:induction false} CloseStrict(f: seq<Tree>, d: nat, e: int)
    requires 0 < d <= Depth(f) && StrictForest(f)
    ensures StrictForest(CloseAt(f, d, e))
    ensures forall i :: 0 <= i < |f| ==> CloseAt(f, d, e)[i].kind == f[i].kind
    decreases d
  {
    var last, r := f[|f| - 1], CloseAt(f, d, e);
    assert StrictTree(last);
    if d > 1 {
      CloseStrict(last.kids, d - 1, e);
    }
    assert StrictTree(r[|r| - 1]);
  }

  lemma AddStep(s: State, f: seq<Tree>, d: nat, t: Tree, down: bool, pos: nat) returns (g: seq<Tree>, d2: nat)
    requires Shape(s, f, d) && t.kids == [] && (!down ==> !t.Head().Open())
    requires s.super != -1 ==> MayFollow(s.toks[s.super], t.kind)
    ensures Shape(State(pos, Bump(s.toks, s.super) + [t.Head()], if down then |s.toks| else s.super), g, d2)
    ensures StrictForest(f) ==> StrictForest(g)
  {
    g, d2 := AddShape(s, f, d, t, down, pos);
    if StrictForest(f) {
      AddStrict(f, d, t);
    }
  }

  /** Moving the superior token to the innermost open bracket, or above the roots. */
  lemma MoveShape(s: State, f: seq<Tree>, d: nat, super: int, pos: nat) returns (d2: nat)
    requires Shape(s, f, d) && super == LastOpen(s.toks)
    ensures Shape(State(pos, s.toks, super), f, d2)
  {
    if super == -1 {
      d2 := 0;
      forall i | 0 <= i < |s.toks| ensures !s.toks[i].Open() {
        NoneOpenAfterLast(s.toks, i);
      }
    } else {
      var k: nat :| k <= d && super == Spine(f, k);
      d2 := k;
      forall i | 0 <= i < |s.toks| && s.toks[i].Open() ensures OnSpine(f, d2, i) {
        if i > super {
          NoneOpenAfterLast(s.toks, i);
        }
        var j: nat :| j <= d && i == Spine(f, j);
        if j > k {
          SpineIncreases(f, k, j);
        }
      }
    }
  }

  /** Closing a spine node keeps the shape. */
  lemma CloseKeepsShape(s: State, f: seq<Tree>, d: nat, k: nat, e: nat)
    requires Shape(s, f, d) && 0 < k <= d
    ensures var i := Spine(f, k); Shape(State(e, s.toks[i := s.toks[i].(end := e)], s.super), CloseAt(f, k, e), d)
  {
    var g := CloseAt(f, k, e);
    var i := Spine(f, k);
    CloseFlat(f, k, e);
    CloseSpine(f, k, e, d);
    var ts := s.toks[i := s.toks[i].(end := e)];
    forall j | 0 <= j < |ts| && ts[j].Open() ensures OnSpine(g, d, j) {
      assert s.toks[j].Open();
      var m: nat :| m <= d && j == Spine(f, m);
      CloseSpine(f, k, e, m);
    }
  }

  lemma CloseShape(s: State, f: seq<Tree>, d: nat, kind: Kind) returns (g: seq<Tree>, d2: nat)
    requires Shape(s, f, d) && CloseBracket(s, kind).Next?
    ensures Shape(CloseBracket(s, kind).st, g, d2) && (StrictForest(f) ==> StrictForest(g))
  {
    var i, e := LastOpen(s.toks), s.pos + 1;
    g, d2 := CloseInnermost(s, f, d, i, e, s.toks[i := s.toks[i].(end := e)]);
    assert CloseBracket(s, kind).st == State(e, s.toks[i := s.toks[i].(end := e)],
                                             LastOpen(s.toks[i := s.toks[i].(end := e)][..i + 1]));
  }

  lemma CloseInnermost(s: State, f: seq<Tree>, d: nat, i: nat, e: nat, ts: seq<Token>)
    returns (g: seq<Tree>, d2: nat)
    requires Shape(s, f, d) && i < |s.toks| && i == LastOpen(s.toks) && ts == s.toks[i := s.toks[i].(end := e)]
    ensures Shape(State(e, ts, LastOpen(ts[..i + 1])), g, d2) && (StrictForest(f) ==> StrictForest(g))
  {
    assert OnSpine(f, d, i);
    var k: nat :| k <= d && i == Spine(f, k);
    g := CloseAt(f, k, e);
    if StrictForest(f) {
      CloseStrict(f, k, e);
    }
    CloseKeepsShape(s, f, d, k, e);
    LastOpenBelow(s.toks, ts, i);
    d2 := MoveShape(State(e, ts, s.super), g, d, LastOpen(ts), e);
  }

  lemma {:induction false} LastOpenIs(ts: seq<Token>, i: int)
    requires -1 <= i < |ts| && (i >= 0 ==> ts[i].Open())
    requires forall j :: i < j < |ts| ==> !ts[j].Open()
    ensures LastOpen(ts) == i
    decreases |ts|
  {
    if ts != [] && i < |ts| - 1 {
      LastOpenIs(ts[..|ts| - 1], i);
    }
  }

  /** Closing the innermost bracket leaves the one below it innermost. */
  lemma LastOpenBelow(before: seq<Token>, after: seq<Token>, i: nat)
    requires i < |before| == |after| && i == LastOpen(before)
    requires after == before[i := after[i]] && !after[i].Open()
    ensures LastOpen(after[..i + 1]) == LastOpen(after)
  {
    var k := LastOpen(after[..i + 1]);
    forall j | k < j < |after| ensures !after[j].Open() {
      if j <= i {
        NoneOpenAfterLast(after[..i + 1], j);
      } else {
        NoneOpenAfterLast(before, j);
      }
    }
    LastOpenIs(after, k);
  }

  lemma StepKeepsForest(js: string, cap: nat, s: State, f: seq<Tree>, d: nat) returns (g: seq<Tree>, d2: nat)
    requires s.Valid(js) && s.pos < |js| && Shape(s, f, d) && BracketsOnly(s.toks)
    requires Step(js, cap, s).Next?
    ensures Shape(Step(js, cap, s).st, g, d2) && (StrictForest(f) ==> StrictForest(g))
  {
    var c := js[s.pos];
    var t := Step(js, cap, s).st;
    if c == '{' || c == '[' {
      g, d2 := AddStep(s, f, d, Tree(if c == '{' then Object else Array, s.pos, -1, []), true, t.pos);
    } else if c == '}' || c == ']' {
      g, d2 := CloseShape(s, f, d, if c == '}' then Object else Array);
    } else if c == '\"' {
      g, d2 := AddStep(s, f, d, Tree(String, s.pos + 1, ScanString(js, s.pos + 1).at, []), false, t.pos);
    } else if IsSpace(c) {
      g, d2 := f, d;
    } else if c == ':' {
      g, d2 := f, Depth(f);
      SpineEnd(f);
      forall i | 0 <= i < |s.toks| && s.toks[i].Open() ensures OnSpine(g, d2, i) {
        var k: nat :| k <= d && i == Spine(f, k);
        assert k <= d2;
      }
    } else if c == ',' {
      g, d2 := f, d;
      if t.super != s.super {
        SameScan(s.toks);
        d2 := MoveShape(s, f, d, t.super, t.pos);
      }
    } else {
      g, d2 := AddStep(s, f, d, Tree(Primitive, s.pos, ScanPrimitive(js, s.pos).at, []), false, t.pos);
    }
  }

  // ------------------------------------------------------------------ nesting

  predicate BracketsOnly(ts: seq<Token>) {
    forall i :: 0 <= i < |ts| && ts[i].Open() ==> ts[i].Container()
  }

  /** A token's span lies in the text read so far; a bracket's ends are its own brackets. */
  predicate SpanOk(js: string, t: Token, pos: nat)
    requires pos <= |js|
  {
    && 0 <= t.start < pos
    && (t.end != -1 ==> t.start <= t.end <= pos)
    && (!t.Container() ==> t.end != -1)
    && (t.Container() ==> js[t.start] == if t.kind == Object then '{' else '[')
    && (t.Container() && t.end != -1 ==> t.start + 1 < t.end && js[t.end - 1] == if t.kind == Object then '}' else ']')
  }

  /** Of two brackets, the later one starts later, and lies inside or after the earlier. */
  predicate Nested(a: Token, b: Token) {
    && a.start < b.start
    && (a.end != -1 ==> a.end <= b.start || (b.end != -1 && b.end < a.end))
  }

  predicate NestedSpans(js: string, ts: seq<Token>, pos: nat)
    requires pos <= |js|
  {
    && (forall i :: 0 <= i < |ts| ==> SpanOk(js, ts[i], pos))
    && (forall i, j :: 0 <= i < j < |ts| && ts[i].Container() && ts[j].Container() ==> Nested(ts[i], ts[j]))
  }

  lemma SpansLater(js: string, ts: seq<Token>, pos: nat, later: nat)
    requires pos <= later <= |js| && NestedSpans(js, ts, pos)
    ensures NestedSpans(js, ts, later)
  {
    forall i | 0 <= i < |ts| ensures SpanOk(js, ts[i], later) {
      assert SpanOk(js, ts[i], pos);
    }
  }

  lemma AddSpans(js: string, ts: seq<Token>, pos: nat, super: int, t: Token, later: nat)
    requires pos < later <= |js| && NestedSpans(js, ts, pos) && -1 <= super < |ts|
    requires SpanOk(js, t, later) && t.start >= pos && (t.Container() ==> t.end == -1)
    ensures NestedSpans(js, Bump(ts, super) + [t], later)
  {
    var us := Bump(ts, super) + [t];
    SpansLater(js, ts, pos, later);
    forall i | 0 <= i < |us| ensures SpanOk(js, us[i], later) {
      if i < |ts| {
        assert SpanOk(js, ts[i], later);
      }
    }
    forall i, j | 0 <= i < j < |us| && us[i].Container() && us[j].Container() ensures Nested(us[i], us[j]) {
      assert SpanOk(js, ts[i], pos);
      if j < |ts| {
        assert Nested(ts[i], ts[j]);
      }
    }
  }

  lemma CloseSpans(js: string, s: State, kind: Kind)
    requires s.pos < |js| && -1 <= s.super < |s.toks| && NestedSpans(js, s.toks, s.pos)
    requires js[s.pos] == if kind == Object then '}' else ']'
    requires kind == Object || kind == Array
    requires CloseBracket(s, kind).Next?
    ensures NestedSpans(js, CloseBracket(s, kind).st.toks, s.pos + 1)
  {
    var o := LastOpen(s.toks);
    var us := CloseBracket(s, kind).st.toks;
    assert SpanOk(js, s.toks[o], s.pos);
    forall i | 0 <= i < |us| ensures SpanOk(js, us[i], s.pos + 1) {
      assert SpanOk(js, s.toks[i], s.pos);
    }
    forall i, j | 0 <= i < j < |us| && us[i].Container() && us[j].Container() ensures Nested(us[i], us[j]) {
      assert Nested(s.toks[i], s.toks[j]);
      assert SpanOk(js, s.toks[j], s.pos);
      if i == o {
        NoneOpenAfterLast(s.toks, j);
      }
    }
  }

  lemma StepKeepsSpans(js: string, cap: nat, s: State)
    requires s.Valid(js) && s.pos < |js| && NestedSpans(js, s.toks, s.pos)
    requires Step(js, cap, s).Next?
    ensures NestedSpans(js, Step(js, cap, s).st.toks, Step(js, cap, s).st.pos)
  {
    var c := js[s.pos];
    var t := Step(js, cap, s).st;
    if c == '{' || c == '[' {
      AddSpans(js, s.toks, s.pos, s.super, Token(if c == '{' then Object else Array, s.pos, -1, 0), t.pos);
    } else if c == '}' || c == ']' {
      CloseSpans(js, s, if c == '}' then Object else Array);
    } else if c == '\"' {
      AddSpans(js, s.toks, s.pos, s.super, Token(String, s.pos + 1, ScanString(js, s.pos + 1).at, 0), t.pos);
    } else if IsSpace(c) || c == ':' || c == ',' {
      SpansLater(js, s.toks, s.pos, t.pos);
    } else {
      AddSpans(js, s.toks, s.pos, s.super, Token(Primitive, s.pos, ScanPrimitive(js, s.pos).at, 0), t.pos);
    }
  }

  lemma SpansAreBrackets(js: string, ts: seq<Token>, pos: nat)
    requires pos <= |js| && NestedSpans(js, ts, pos)
    ensures BracketsOnly(ts)
  {
    forall i | 0 <= i < |ts| && ts[i].Open() ensures ts[i].Container() {
      assert SpanOk(js, ts[i], pos);
    }
  }

  // -------------------------------------------------------------- the theorem

  lemma {:induction false} RunKeeps(
    js: string, cap: nat, s: State, f: seq<Tree>, d: nat) returns (g: seq<Tree>, at: nat)
    requires s.Valid(js) && Shape(s, f, d) && NestedSpans(js, s.toks, s.pos)
    requires Run(js, cap, s).Tokens? && StrictForest(f)
    ensures Run(js, cap, s).toks == Flat(g) && at <= |js| && NestedSpans(js, Flat(g), at) && StrictForest(g)
    ensures forall i :: 0 <= i < |Flat(g)| ==> !Flat(g)[i].Open()
    decreases |js| - s.pos
  {
    if AtEnd(js, s) {
      g, at := f, s.pos;
      forall i | 0 <= i < |s.toks| ensures !s.toks[i].Open() {
        NoneOpenAfterLast(s.toks, i);
      }
    } else {
      SpansAreBrackets(js, s.toks, s.pos);
      var f2, d2 := StepKeepsForest(js, cap, s, f, d);
      StepKeepsSpans(js, cap, s);
      g, at := RunKeeps(js, cap, Step(js, cap, s).st, f2, d2);
    }
  }

  /** Every accepted text: a forest in preorder, every token closed, spans inside the
      text, brackets nested and matching. */
  lemma AcceptedIsForest(js: string, cap: nat) returns (f: seq<Tree>)
    requires Tokenize(js, cap).Tokens?
    ensures Tokenize(js, cap).toks == Flat(f)
    ensures NestedSpans(js, Flat(f), |js|)
    ensures StrictForest(f)
    ensures forall i :: 0 <= i < |Flat(f)| ==> Flat(f)[i].end != -1
  {
    var at: nat;
    f, at := RunKeeps(js, cap, Start, [], 0);
    SpansLater(js, Flat(f), at, |js|);
    forall i | 0 <= i < |Flat(f)| ensures Flat(f)[i].end != -1 {
      assert SpanOk(js, Flat(f)[i], |js|);
    }
  }
}
