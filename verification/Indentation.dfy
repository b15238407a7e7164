/** Indentation: what the typeset text of a derivation leaves open depends on its category alone. */
module Indentation {
  import opened Scraps
  import opened Productions
  import opened Parsing
  import opened Derivations

  /** How a symbol changes the indentation. */
  function Change(s: Sym): int {
    if s.Indent? then 1 else if s.Outdent? then -1 else 0
  }

  /** Indents minus outdents among the symbols that productions added to a text. */
  function NetIndent(items: seq<Item<Scrap>>): int {
    if items == [] then 0
    else (match items[0] case Piece(_) => 0 case Glue(s) => Change(s)) + NetIndent(items[1..])
  }

  lemma {:induction false} NetAppend(a: seq<Item<Scrap>>, b: seq<Item<Scrap>>)
    ensures NetIndent(a + b) == NetIndent(a) + NetIndent(b)
  {
    if a == [] {
      assert a + b == b;
    } else {
      assert (a + b)[1..] == a[1..] + b;
      NetAppend(a[1..], b);
    }
  }

  lemma NetGlue(s: Sym)
    ensures NetIndent([Glue(s)]) == Change(s)
  {
    var g: Item<Scrap> := Glue(s);
    assert [g][1..] == [];
  }

  lemma NetToggle(from: Mathness, to: Mathness)
    ensures NetIndent(ToggleItems(from, to)) == 0
  {
    var l: Item<Scrap> := Glue(BraceL);
    var r: Item<Scrap> := Glue(BraceR);
    var d: Item<Scrap> := Glue(Dollar);
    NetGlue(BraceL);
    NetGlue(BraceR);
    NetGlue(Dollar);
    assert [l, r, d] == [l] + ([r] + [d]) && [d, l, r] == [d] + ([l] + [r]);
    NetAppend([l], [r] + [d]);
    NetAppend([r], [d]);
    NetAppend([d], [l] + [r]);
    NetAppend([l], [r]);
  }

  function SumNet(ts: seq<Tree>): int {
    if ts == [] then 0 else NetIndent(Out(ts[0])) + SumNet(ts[1..])
  }

  function SumOpen(ts: seq<Tree>): nat {
    if ts == [] then 0 else Open(Root(ts[0])) + SumOpen(ts[1..])
  }

  /** The open indents that were lost inside a tree. */
  function Lost(t: Tree): nat
    decreases t, 0
  {
    match t
    case Leaf(_) => 0
    case Reserved(kid) => Lost(kid)
    case Node(v, a, kids) =>
      if a.Reduce? && Replaces(a.n) then 0
      else LostIn(kids) + (if a.Reduce? then Swallows(v, a.at, a.cat) else 0)
  }

  function LostIn(ts: seq<Tree>): nat
    decreases ts, 1
  {
    if ts == [] then 0 else Lost(ts[0]) + LostIn(ts[1..])
  }

  lemma NothingOut(kids: seq<Tree>, at: nat, cur: Mathness)
    ensures NetIndent(RecipeOut(End, kids, at, cur)) == SumNet(kids[|kids|..]) == 0
  {
  }

  lemma KidIndent(i: nat, rest: Recipe, kids: seq<Tree>, at: nat, cur: Mathness)
    requires at <= i < at + |kids|
    ensures var e := Ends(kids[i - at]);
      NetIndent(RecipeOut(Kid(i, rest), kids, at, cur))
      == NetIndent(Out(kids[i - at])) + NetIndent(RecipeOut(rest, kids, at, if e.init.MaybeMath? then cur else e.cur))
    ensures SumNet(kids[i - at..]) == NetIndent(Out(kids[i - at])) + SumNet(kids[i - at + 1..])
  {
    hide Out, Ends, NetIndent;
    var e := Ends(kids[i - at]);
    var cur' := if e.init.MaybeMath? then cur else e.cur;
    NetToggle(cur, e.init);
    NetAppend(ToggleItems(cur, e.init), Out(kids[i - at]));
    NetAppend(ToggleItems(cur, e.init) + Out(kids[i - at]), RecipeOut(rest, kids, at, cur'));
    assert kids[i - at..][1..] == kids[i - at + 1..];
  }

  lemma BigIndent(s: Glyph, rest: Recipe, kids: seq<Tree>, at: nat, cur: Mathness)
    ensures NetIndent(RecipeOut(Big(s, rest), kids, at, cur)) ==
            Change(s) + NetIndent(RecipeOut(rest, kids, at, ModeOf(s)))
  {
    hide Out, Ends, NetIndent;
    NetToggle(cur, ModeOf(s));
    NetGlue(s);
    NetAppend(ToggleItems(cur, ModeOf(s)), [Glue(s)]);
    NetAppend(ToggleItems(cur, ModeOf(s)) + [Glue(s)], RecipeOut(rest, kids, at, ModeOf(s)));
  }

  lemma PutIndent(s: Glyph, rest: Recipe, kids: seq<Tree>, at: nat, cur: Mathness)
    ensures NetIndent(RecipeOut(Put(s, rest), kids, at, cur)) == Change(s) + NetIndent(RecipeOut(rest, kids, at, cur))
  {
    hide Out, Ends, NetIndent;
    NetGlue(s);
    NetAppend([Glue(s)], RecipeOut(rest, kids, at, cur));
  }

  lemma {:induction false} RecipeIndent(r: Recipe, kids: seq<Tree>, at: nat, next: nat, cur: Mathness, depth: nat,
                                        after: nat)
    requires at <= next <= at + |kids| && KidsOf(r) == UpTo(next, at + |kids| - next)
    requires Indents(r, depth, after)
    ensures NetIndent(RecipeOut(r, kids, at, cur)) == after - depth + SumNet(kids[next - at..])
    decreases r
  {
    hide Out, Ends, UpTo, KidsOf, NetIndent, SumNet, RecipeOut;
    UpToNext(r, next, at + |kids|);
    match r
    case End =>
      NothingOut(kids, at, cur);
    case Kid(i, rest) =>
      var e := Ends(kids[i - at]);
      RecipeIndent(rest, kids, at, next + 1, if e.init.MaybeMath? then cur else e.cur, depth, after);
      KidIndent(i, rest, kids, at, cur);
      assert next + 1 - at == next - at + 1;
    case Big(s, rest) =>
      BigIndent(s, rest, kids, at, cur);
      RecipeIndent(rest, kids, at, next, ModeOf(s), DepthAfter(s, depth), after);
    case Put(s, rest) =>
      PutIndent(s, rest, kids, at, cur);
      RecipeIndent(rest, kids, at, next, cur, DepthAfter(s, depth), after);
  }

  function DepthAfter(s: Sym, depth: nat): nat {
    if s.Indent? then depth + 1 else if s.Outdent? && depth > 0 then depth - 1 else depth
  }

  lemma {:induction false} OpenInIsSum(v: View, at: nat, kids: seq<Tree>)
    requires at + |kids| <= 4
    requires forall i :: 0 <= i < |kids| ==> Root(kids[i]) == v.At(at + i)
    ensures SumOpen(kids) == OpenIn(v, at, |kids|)
    decreases |kids|
  {
    if kids != [] {
      assert forall i :: 0 <= i < |kids[1..]| ==> Root(kids[1..][i]) == v.At(at + 1 + i);
      OpenInIsSum(v, at + 1, kids[1..]);
      assert Root(kids[0]) == v.At(at + 0);
    }
  }

  lemma {:induction false} SumNetIs(ts: seq<Tree>)
    requires forall i :: 0 <= i < |ts| ==> NetIndent(Out(ts[i])) == Open(Root(ts[i])) + Lost(ts[i])
    ensures SumNet(ts) == SumOpen(ts) + LostIn(ts)
  {
    if ts != [] {
      SumNetIs(ts[1..]);
    }
  }

  /** The indentation theorem: the text of a derivation leaves two indents open when its category is fn_decl and none
      otherwise, apart from those of fn_decl scraps that were taken into an end_arg. */
  lemma {:induction false} TreeIndents(t: Tree)
    requires Valid(t) && forall s :: s in Leaves(t) ==> !s.cat.FnDecl?
    ensures NetIndent(Out(t)) == Open(Root(t)) + Lost(t)
  {
    match t
    case Leaf(s) =>
      assert s in Leaves(t);
      assert [Piece(s)][1..] == [];
    case Reserved(kid) =>
      TreeIndents(kid);
    case Node(v, a, kids) =>
      forall i | 0 <= i < |kids|
        ensures NetIndent(Out(kids[i])) == Open(Root(kids[i])) + Lost(kids[i])
      {
        forall s | s in Leaves(kids[i]) ensures !s.cat.FnDecl? { LeavesOfHas(kids, i, s); }
        TreeIndents(kids[i]);
      }
      NodeLegal(t);
      SumNetIs(kids);
      NodeIndents(v, a, kids);
  }

  lemma NodeIndents(v: View, a: Action, kids: seq<Tree>)
    requires Applies(v, a, kids) && Legal(a, v)
    requires SumNet(kids) == SumOpen(kids) + LostIn(kids)
    ensures NetIndent(Out(Node(v, a, kids))) == Open(ResultCat(a)) + Lost(Node(v, a, kids))
  {
    match a
    case Relabel(at, cat, _, _) =>
      assert kids[1..] == [];
    case Reduce(at, k, cat, _, n, _, start, recipe) =>
      if Replaces(n) {
        NetGlue(recipe.sym);
        var g: Item<Scrap> := Glue(recipe.sym);
        assert recipe == Put(g.sym, End) && !g.sym.Indent? && !g.sym.Outdent?;
        assert RecipeOut(End, kids, at, start) == [];
        assert [g] + [] == [g];
      } else {
        OpenInIsSum(v, at, kids);
        RecipeIndent(recipe, kids, at, at, start, OpenIn(v, at, k), Open(cat) + Swallows(v, at, cat));
        assert kids[0..] == kids;
      }
  }

  /** Without a macro-argument bracket no indents are lost. */
  lemma {:induction false} NothingLost(t: Tree)
    requires Valid(t) && forall s :: s in Leaves(t) ==> !s.cat.EndArg?
    ensures Lost(t) == 0
  {
    match t
    case Leaf(_) =>
    case Reserved(kid) =>
      NothingLost(kid);
    case Node(v, a, kids) =>
      forall i | 0 <= i < |kids|
        ensures Lost(kids[i]) == 0
      {
        forall s | s in Leaves(kids[i]) ensures !s.cat.EndArg? { LeavesOfHas(kids, i, s); }
        NothingLost(kids[i]);
      }
      NothingLostIn(kids);
      if ResultCat(a).EndArg? {
        RootFromLeaf(t);
      }
  }

  lemma {:induction false} NothingLostIn(ts: seq<Tree>)
    requires forall i :: 0 <= i < |ts| ==> Lost(ts[i]) == 0
    ensures LostIn(ts) == 0
  {
    if ts != [] {
      NothingLostIn(ts[1..]);
    }
  }
}
