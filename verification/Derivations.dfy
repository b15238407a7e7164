/** Derivation trees of the CWEAVE grammar. What a tree stands for -- its leaves, its typeset text, its mathness and its
    indentation -- is defined here without reference to the parser's memory. */
module Derivations {
  import opened Scraps
  import opened Productions
  import opened Parsing

  /** Typeset text: the text of an input scrap as a whole, or a symbol added by a production. */
  datatype Item<T> = Piece(leaf: T) | Glue(sym: Sym)

  /** `Reserved` marks an exp scrap that `make_reserved` turned into raw_int; `Node` is an application of a production,
      with what the parser saw when it applied it. */
  datatype Tree =
    | Leaf(scrap: Scrap)
    | Reserved(kid: Tree)
    | Node(view: View, action: Action, kids: seq<Tree>)

  function ResultCat(a: Action): Cat {
    match a
    case NoMatch => Zero
    case Relabel(_, cat, _, _) => cat
    case Reduce(_, _, cat, _, _, _, _, _) => cat
  }

  function Root(t: Tree): Cat {
    match t
    case Leaf(s) => s.cat
    case Reserved(_) => RawInt
    case Node(_, a, _) => ResultCat(a)
  }

  predicate WellSeen(v: View) {
    !v.c0.Zero? && (v.c1.Zero? ==> v.c2.Zero?) && (v.c2.Zero? ==> v.c3.Zero?)
  }

  /** The production found at `v` is `a`. (Said with a quantifier, so that the verifier looks into the table only where
      `Production` is mentioned.) */
  ghost predicate Matches(v: View, a: Action) {
    forall u :: u == v ==> Production(u) == a
  }

  /** A node is made by the production that the parser finds at its view, from trees of the categories it consumes. */
  ghost predicate Applies(v: View, a: Action, kids: seq<Tree>) {
    && WellSeen(v) && Matches(v, a)
    && match a
       case NoMatch => false
       case Relabel(at, _, _, _) => |kids| == 1 && Root(kids[0]) == v.At(at)
       case Reduce(at, k, _, _, _, _, _, _) =>
         |kids| == k && forall i :: 0 <= i < k ==> Root(kids[i]) == v.At(at + i)
  }

  ghost predicate Valid(t: Tree) {
    match t
    case Leaf(s) => BothOrNeither(s)
    case Reserved(kid) => Valid(kid) && Root(kid).Exp?
    case Node(v, a, kids) => Applies(v, a, kids) && forall i :: 0 <= i < |kids| ==> Valid(kids[i])
  }

  /** The input scraps a tree covers, in order. */
  function Leaves(t: Tree): seq<Scrap>
    decreases t, 0
  {
    match t
    case Leaf(s) => [s]
    case Reserved(kid) => Leaves(kid)
    case Node(_, _, kids) => LeavesOf(kids)
  }

  function LeavesOf(ts: seq<Tree>): seq<Scrap>
    decreases ts, 1
  {
    if ts == [] then [] else Leaves(ts[0]) + LeavesOf(ts[1..])
  }

  /** The mathness of a tree's left and right boundary. */
  function Ends(t: Tree): Regs
    decreases t, 0
  {
    match t
    case Leaf(s) => Regs(s.left, s.right)
    case Reserved(kid) => Ends(kid)
    case Node(_, a, kids) =>
      if a.Reduce? then RecipeEnds(a.recipe, kids, a.at, Regs(a.start, a.start))
      else if |kids| == 1 then Ends(kids[0])
      else Regs(MaybeMath, MaybeMath)
  }

  function RecipeEnds(r: Recipe, kids: seq<Tree>, at: nat, regs: Regs): Regs
    decreases kids, 1, r
  {
    match r
    case End => regs
    case Kid(i, rest) =>
      if at <= i < at + |kids| then
        var e := Ends(kids[i - at]);
        RecipeEnds(rest, kids, at, Meet(regs, e.init, e.cur))
      else RecipeEnds(rest, kids, at, regs)
    case Big(s, rest) => RecipeEnds(rest, kids, at, Meet(regs, ModeOf(s), ModeOf(s)))
    case Put(_, rest) => RecipeEnds(rest, kids, at, regs)
  }

  function ToggleItems<T>(from: Mathness, to: Mathness): seq<Item<T>> {
    if from.YesMath? && to.NoMath? then [Glue(BraceL), Glue(BraceR), Glue(Dollar)]
    else if from.NoMath? && to.YesMath? then [Glue(Dollar), Glue(BraceL), Glue(BraceR)]
    else []
  }

  /** The typeset text of a tree. */
  function Out(t: Tree): seq<Item<Scrap>>
    decreases t, 0
  {
    match t
    case Leaf(s) => [Piece(s)]
    case Reserved(kid) => Out(kid)
    case Node(_, a, kids) =>
      if a.Reduce? then RecipeOut(a.recipe, kids, a.at, a.start)
      else if |kids| == 1 then Out(kids[0])
      else []
  }

  function RecipeOut(r: Recipe, kids: seq<Tree>, at: nat, cur: Mathness): seq<Item<Scrap>>
    decreases kids, 1, r
  {
    match r
    case End => []
    case Kid(i, rest) =>
      if at <= i < at + |kids| then
        var e := Ends(kids[i - at]);
        ToggleItems(cur, e.init) + Out(kids[i - at])
        + RecipeOut(rest, kids, at, if e.init.MaybeMath? then cur else e.cur)
      else RecipeOut(rest, kids, at, cur)
    case Big(s, rest) => ToggleItems(cur, ModeOf(s)) + [Glue(s)] + RecipeOut(rest, kids, at, ModeOf(s))
    case Put(s, rest) => [Glue(s)] + RecipeOut(rest, kids, at, cur)
  }

  lemma NodeLegal(t: Tree)
    requires Valid(t) && t.Node?
    ensures Legal(t.action, t.view) && !t.action.NoMatch?
    ensures t.action == Production(t.view)
  {
    ProductionLegal(t.view);
  }

  // ---------- where categories come from ----------

  lemma {:induction false} LeavesOfAppend(a: seq<Tree>, b: seq<Tree>)
    ensures LeavesOf(a + b) == LeavesOf(a) + LeavesOf(b)
  {
    if a == [] {
      assert a + b == b;
    } else {
      assert (a + b)[1..] == a[1..] + b;
      LeavesOfAppend(a[1..], b);
    }
  }

  lemma LeavesOfTwo(a: Tree, b: Tree)
    ensures LeavesOf([a]) == Leaves(a) && LeavesOf([a, b]) == Leaves(a) + Leaves(b)
  {
    hide Leaves;
    assert [a][1..] == [] && [b][1..] == [] && [a, b][1..] == [b];
  }

  lemma {:induction false} LeavesOfHas(ts: seq<Tree>, i: nat, s: Scrap)
    requires i < |ts| && s in Leaves(ts[i])
    ensures s in LeavesOf(ts)
  {
    if i > 0 {
      assert ts[i] == ts[1..][i - 1];
      LeavesOfHas(ts[1..], i - 1, s);
    }
  }

  lemma HeirOf(v: View, a: Action, kids: seq<Tree>) returns (j: nat)
    requires Applies(v, a, kids) && ResultCat(a).EndArg?
    ensures j < |kids| && Root(kids[j]) == ResultCat(a)
  {
    ProductionInherits(v);
    HeirIn(v, a);
    var i :| a.at <= i < a.at + a.k && v.At(i) == a.cat;
    j := i - a.at;
    assert Root(kids[j]) == v.At(a.at + j);
  }

  lemma HeirIn(v: View, a: Action)
    requires Inherits(a, v) && ResultCat(a).EndArg?
    ensures a.Reduce? && exists i :: a.at <= i < a.at + a.k && v.At(i) == a.cat
  {
  }

  /** A tree of category end_arg has a leaf of that category. */
  lemma {:induction false} RootFromLeaf(t: Tree)
    requires Valid(t) && Root(t).EndArg?
    ensures exists s :: s in Leaves(t) && s.cat == Root(t)
  {
    match t
    case Leaf(s) =>
      assert s in Leaves(t);
    case Node(v, a, kids) =>
      var j := HeirOf(v, a, kids);
      RootFromLeaf(kids[j]);
      var s :| s in Leaves(kids[j]) && s.cat == Root(t);
      LeavesOfHas(kids, j, s);
  }

  /** A recipe that appends the scraps from `next` on. */
  lemma UpToNext(r: Recipe, next: nat, end: nat)
    requires next <= end && KidsOf(r) == UpTo(next, end - next)
    ensures r.End? ==> next == end
    ensures r.Kid? ==> r.i == next < end && KidsOf(r.rest) == UpTo(next + 1, end - (next + 1))
    ensures r.Big? || r.Put? ==> KidsOf(r.rest) == UpTo(next, end - next)
  {
    if r.Kid? {
      assert KidsOf(r)[0] == r.i && KidsOf(r)[1..] == KidsOf(r.rest);
      assert UpTo(next, end - next) == [next] + UpTo(next + 1, end - next - 1);
      assert UpTo(next, end - next)[1..] == UpTo(next + 1, end - next - 1);
    }
  }
}
