/** Conservation: the typeset text of a derivation shows the scraps of the input below it, once and in order. */
module Conservation {
  import opened Scraps
  import opened Productions
  import opened Parsing
  import opened Derivations

  /** What became of the input: a scrap whose text was kept, or several that one angle sign replaced. */
  datatype Part = Kept(scrap: Scrap) | Replaced(scraps: seq<Scrap>, sign: Sym)

  function Parts(t: Tree): seq<Part>
    decreases t, 0
  {
    match t
    case Leaf(s) => [Kept(s)]
    case Reserved(kid) => Parts(kid)
    case Node(_, a, kids) =>
      if a.Reduce? && Replaces(a.n) && a.recipe.Put? then [Replaced(LeavesOf(kids), a.recipe.sym)] else PartsOf(kids)
  }

  function PartsOf(ts: seq<Tree>): seq<Part>
    decreases ts, 1
  {
    if ts == [] then [] else Parts(ts[0]) + PartsOf(ts[1..])
  }

  /** All scraps that some parts stand for. */
  function Covered(parts: seq<Part>): seq<Scrap> {
    if parts == [] then []
    else (match parts[0] case Kept(s) => [s] case Replaced(ss, _) => ss) + Covered(parts[1..])
  }

  /** What some parts look like in the output. */
  function Shown(parts: seq<Part>): seq<Item<Scrap>> {
    if parts == [] then []
    else (match parts[0] case Kept(s) => [Piece(s)] case Replaced(_, sign) => [Glue(sign)]) + Shown(parts[1..])
  }

  /** The items of a text that come from the input: whole scraps, and the angle signs that replace some. */
  function Visible(items: seq<Item<Scrap>>): seq<Item<Scrap>> {
    if items == [] then []
    else (if items[0].Piece? || items[0].sym.LessSign? || items[0].sym.GreaterSign? then [items[0]] else [])
         + Visible(items[1..])
  }

  lemma {:induction false} CoveredAppend(a: seq<Part>, b: seq<Part>)
    ensures Covered(a + b) == Covered(a) + Covered(b)
  {
    if a == [] {
      assert a + b == b;
    } else {
      assert (a + b)[1..] == a[1..] + b;
      CoveredAppend(a[1..], b);
    }
  }

  lemma {:induction false} ShownAppend(a: seq<Part>, b: seq<Part>)
    ensures Shown(a + b) == Shown(a) + Shown(b)
  {
    if a == [] {
      assert a + b == b;
    } else {
      assert (a + b)[1..] == a[1..] + b;
      ShownAppend(a[1..], b);
    }
  }

  lemma {:induction false} VisibleAppend(a: seq<Item<Scrap>>, b: seq<Item<Scrap>>)
    ensures Visible(a + b) == Visible(a) + Visible(b)
  {
    if a == [] {
      assert a + b == b;
    } else {
      assert (a + b)[0] == a[0] && (a + b)[1..] == a[1..] + b;
      VisibleAppend(a[1..], b);
    }
  }

  lemma VisibleCons(s: Sym, rest: seq<Item<Scrap>>)
    requires !s.LessSign? && !s.GreaterSign?
    ensures Visible([Glue(s)] + rest) == Visible(rest)
  {
    assert ([Glue(s)] + rest)[1..] == rest;
  }

  lemma VisibleToggle(from: Mathness, to: Mathness, rest: seq<Item<Scrap>>)
    ensures Visible(ToggleItems(from, to) + rest) == Visible(rest)
  {
    var l: Item<Scrap> := Glue(BraceL);
    var r: Item<Scrap> := Glue(BraceR);
    var d: Item<Scrap> := Glue(Dollar);
    if from.YesMath? && to.NoMath? {
      assert ToggleItems(from, to) + rest == [l] + ([r] + ([d] + rest));
      VisibleCons(BraceL, [r] + ([d] + rest));
      VisibleCons(BraceR, [d] + rest);
      VisibleCons(Dollar, rest);
    } else if from.NoMath? && to.YesMath? {
      assert ToggleItems(from, to) + rest == [d] + ([l] + ([r] + rest));
      VisibleCons(Dollar, [l] + ([r] + rest));
      VisibleCons(BraceL, [r] + rest);
      VisibleCons(BraceR, rest);
    } else {
      assert ToggleItems(from, to) + rest == rest;
    }
  }

  lemma VisibleJoin(from: Mathness, to: Mathness, a: seq<Item<Scrap>>, b: seq<Item<Scrap>>)
    ensures Visible(ToggleItems(from, to) + a + b) == Visible(a) + Visible(b)
  {
    assert ToggleItems(from, to) + a + b == ToggleItems(from, to) + (a + b);
    VisibleToggle(from, to, a + b);
    VisibleAppend(a, b);
  }

  predicate Shows(t: Tree) {
    Visible(Out(t)) == Shown(Parts(t))
  }

  predicate AllShow(ts: seq<Tree>) {
    forall i :: 0 <= i < |ts| ==> Shows(ts[i])
  }

  lemma PartsOfNext(kids: seq<Tree>, j: nat)
    requires j < |kids| && AllShow(kids)
    ensures Shown(PartsOf(kids[j..])) == Visible(Out(kids[j])) + Shown(PartsOf(kids[j + 1..]))
  {
    assert Shows(kids[j]);
    assert kids[j..][1..] == kids[j + 1..];
    ShownAppend(Parts(kids[j]), PartsOf(kids[j + 1..]));
  }

  lemma VisibleKid(i: nat, rest: Recipe, kids: seq<Tree>, at: nat, cur: Mathness)
    requires at <= i < at + |kids|
    ensures var e := Ends(kids[i - at]);
      Visible(RecipeOut(Kid(i, rest), kids, at, cur)) ==
      Visible(Out(kids[i - at])) + Visible(RecipeOut(rest, kids, at, if e.init.MaybeMath? then cur else e.cur))
  {
    hide Visible, Out, Ends, ToggleItems;
    var e := Ends(kids[i - at]);
    VisibleJoin(cur, e.init, Out(kids[i - at]), RecipeOut(rest, kids, at, if e.init.MaybeMath? then cur else e.cur));
  }

  lemma VisibleBig(s: Glyph, rest: Recipe, kids: seq<Tree>, at: nat, cur: Mathness)
    requires !Special(s)
    ensures Visible(RecipeOut(Big(s, rest), kids, at, cur)) == Visible(RecipeOut(rest, kids, at, ModeOf(s)))
  {
    hide ModeOf;
    var g: Item<Scrap> := Glue(s);
    VisibleJoin(cur, ModeOf(s), [g], RecipeOut(rest, kids, at, ModeOf(s)));
    assert [g][1..] == [];
  }

  /** A symbol that a recipe appends without being known to be in math mode does not come from the input. */
  lemma VisiblePut(s: Glyph, known: Mathness, rest: Recipe, kids: seq<Tree>, at: nat, cur: Mathness)
    requires Suits(s, known) && !known.YesMath?
    ensures Visible(RecipeOut(Put(s, rest), kids, at, cur)) == Visible(RecipeOut(rest, kids, at, cur))
  {
    VisibleCons(s, RecipeOut(rest, kids, at, cur));
  }

  lemma VisibleNothing(kids: seq<Tree>, at: nat, cur: Mathness)
    ensures Visible(RecipeOut(End, kids, at, cur)) == Shown(PartsOf(kids[|kids|..]))
  {
  }

  lemma {:induction false} RecipeVisible(r: Recipe, kids: seq<Tree>, at: nat, next: nat, cur: Mathness, known: Mathness)
    requires at <= next <= at + |kids| && KidsOf(r) == UpTo(next, at + |kids| - next)
    requires PutsSafely(r, known) && !known.YesMath? && AllShow(kids)
    ensures Visible(RecipeOut(r, kids, at, cur)) == Shown(PartsOf(kids[next - at..]))
    decreases r
  {
    hide Out, Ends, UpTo, KidsOf, AllShow, Visible, Shown, PartsOf, RecipeOut;
    UpToNext(r, next, at + |kids|);
    match r
    case End =>
      VisibleNothing(kids, at, cur);
    case Kid(i, rest) =>
      var e := Ends(kids[i - at]);
      RecipeVisible(rest, kids, at, next + 1, if e.init.MaybeMath? then cur else e.cur, MaybeMath);
      VisibleKid(i, rest, kids, at, cur);
      PartsOfNext(kids, next - at);
      assert next + 1 - at == next - at + 1;
    case Big(s, rest) =>
      RecipeVisible(rest, kids, at, next, ModeOf(s), if s.Indent? then NoMath else MaybeMath);
      VisibleBig(s, rest, kids, at, cur);
    case Put(s, rest) =>
      RecipeVisible(rest, kids, at, next, cur, known);
      VisiblePut(s, known, rest, kids, at, cur);
  }

  lemma {:induction false} LeavesOfCovered(ts: seq<Tree>)
    requires forall i :: 0 <= i < |ts| ==> Covered(Parts(ts[i])) == Leaves(ts[i])
    ensures Covered(PartsOf(ts)) == LeavesOf(ts)
  {
    if ts != [] {
      CoveredAppend(Parts(ts[0]), PartsOf(ts[1..]));
      LeavesOfCovered(ts[1..]);
    }
  }

  /** The conservation theorem: the parts of a derivation cover its leaves, each once and in order, and the output shows
      the parts in that order and nothing else that comes from the input. */
  lemma {:induction false} TreeConserves(t: Tree)
    requires Valid(t)
    ensures Covered(Parts(t)) == Leaves(t)
    ensures Visible(Out(t)) == Shown(Parts(t))
  {
    match t
    case Leaf(s) =>
      assert [Kept(s)][1..] == [];
      assert [Piece(s)][1..] == [];
    case Reserved(kid) =>
      TreeConserves(kid);
    case Node(v, a, kids) =>
      forall i | 0 <= i < |kids|
        ensures Covered(Parts(kids[i])) == Leaves(kids[i]) && Shows(kids[i])
      {
        TreeConserves(kids[i]);
      }
      LeavesOfCovered(kids);
      NodeLegal(t);
      NodeConserves(v, a, kids);
  }

  lemma NodeConserves(v: View, a: Action, kids: seq<Tree>)
    requires Applies(v, a, kids) && Legal(a, v) && Covered(PartsOf(kids)) == LeavesOf(kids)
    requires AllShow(kids)
    ensures Covered(Parts(Node(v, a, kids))) == LeavesOf(kids)
    ensures Visible(Out(Node(v, a, kids))) == Shown(Parts(Node(v, a, kids)))
  {
    match a
    case Relabel(at, cat, _, _) =>
      assert kids[1..] == [] && Parts(kids[0]) + [] == Parts(kids[0]);
    case Reduce(at, k, cat, _, n, _, start, recipe) =>
      if Replaces(n) {
        var part := Replaced(LeavesOf(kids), recipe.sym);
        var g: Item<Scrap> := Glue(recipe.sym);
        assert recipe == Put(g.sym, End) && (g.sym.LessSign? || g.sym.GreaterSign?);
        assert RecipeOut(End, kids, at, start) == [];
        assert [g] + [] == [g];
        assert [g][1..] == [];
        assert [part][1..] == [];
        assert LeavesOf(kids) + [] == LeavesOf(kids);
      } else {
        RecipeVisible(recipe, kids, at, at, start, start);
        assert kids[0..] == kids;
      }
  }

  /** Scraps that inserts are made of. */
  ghost predicate MakeInserts(ss: seq<Scrap>) {
    exists ts: seq<Tree> :: AllInserts(ts) && LeavesOf(ts) == ss
  }

  ghost predicate AllInserts(ts: seq<Tree>) {
    forall i :: 0 <= i < |ts| ==> Valid(ts[i]) && Root(ts[i]).Insert?
  }

  /** One scrap of category `cat`; all that is before and after it are inserts. */
  ghost predicate OneAmongInserts(ss: seq<Scrap>, cat: Cat) {
    exists k :: 0 <= k < |ss| && ss[k].cat == cat && MakeInserts(ss[..k]) && MakeInserts(ss[k + 1..])
  }

  /** A sign replaces one prelangle scrap (a less sign) or one prerangle scrap (a greater sign), with the inserts that
      it has absorbed, and nothing else. */
  ghost predicate ReplacedRightly(p: Part) {
    p.Kept?
    || (p.sign.LessSign? && OneAmongInserts(p.scraps, Prelangle))
    || (p.sign.GreaterSign? && OneAmongInserts(p.scraps, Prerangle))
  }

  lemma NoInserts()
    ensures MakeInserts([])
  {
    assert AllInserts([]) && LeavesOf([]) == [];
  }

  lemma InsertAround(ss: seq<Scrap>, t: Tree)
    requires MakeInserts(ss) && Valid(t) && Root(t).Insert?
    ensures MakeInserts(ss + Leaves(t)) && MakeInserts(Leaves(t) + ss)
  {
    hide Valid, Leaves;
    var ts :| AllInserts(ts) && LeavesOf(ts) == ss;
    LeavesOfAppend(ts, [t]);
    LeavesOfAppend([t], ts);
    assert [t][1..] == [] && LeavesOf([t]) == Leaves(t) + [];
    assert AllInserts(ts + [t]) && AllInserts([t] + ts);
  }

  /** A scrap that takes in an insert. */
  lemma AbsorbInsert(ss: seq<Scrap>, cat: Cat, t: Tree)
    requires OneAmongInserts(ss, cat) && Valid(t) && Root(t).Insert?
    ensures OneAmongInserts(ss + Leaves(t), cat) && OneAmongInserts(Leaves(t) + ss, cat)
  {
    hide Valid, Leaves, MakeInserts;
    var k :| 0 <= k < |ss| && ss[k].cat == cat && MakeInserts(ss[..k]) && MakeInserts(ss[k + 1..]);
    InsertAround(ss[..k], t);
    InsertAround(ss[k + 1..], t);
    var a, b, n := ss + Leaves(t), Leaves(t) + ss, |Leaves(t)|;
    assert a[..k] == ss[..k] && a[k + 1..] == ss[k + 1..] + Leaves(t) && a[k] == ss[k];
    assert b[..n + k] == Leaves(t) + ss[..k] && b[n + k + 1..] == ss[k + 1..] && b[n + k] == ss[k];
  }

  /** The two scraps that make a prelangle or prerangle scrap. */
  lemma TwoKids(v: View, a: Action, kids: seq<Tree>)
    requires Applies(v, a, kids) && (ResultCat(a).Prelangle? || ResultCat(a).Prerangle?)
    ensures |kids| == 2
    ensures (Root(kids[0]) == ResultCat(a) && Root(kids[1]).Insert?)
            || (Root(kids[0]).Insert? && Root(kids[1]) == ResultCat(a))
  {
    hide WellSeen, Inherits;
    ProductionInherits(v);
    AbsorbsHere(a, v);
    assert Root(kids[0]) == v.At(a.at + 0) && Root(kids[1]) == v.At(a.at + 1);
  }

  lemma AbsorbsHere(a: Action, v: View)
    requires Inherits(a, v) && (ResultCat(a).Prelangle? || ResultCat(a).Prerangle?)
    ensures a.Reduce? && Absorbs(v, a.at, a.k, a.cat)
  {
  }

  /** A derivation of category prelangle or prerangle covers one such scrap, and inserts. */
  lemma {:induction false} AngleShape(t: Tree)
    requires Valid(t) && (Root(t).Prelangle? || Root(t).Prerangle?)
    ensures OneAmongInserts(Leaves(t), Root(t))
  {
    hide OneAmongInserts, Applies;
    match t
    case Leaf(s) =>
      OneAlone(s);
    case Node(v, a, kids) =>
      TwoKids(v, a, kids);
      assert kids == [kids[0], kids[1]];
      LeavesOfTwo(kids[0], kids[1]);
      if Root(kids[1]).Insert? {
        AngleShape(kids[0]);
        AbsorbInsert(Leaves(kids[0]), Root(t), kids[1]);
      } else {
        AngleShape(kids[1]);
        AbsorbInsert(Leaves(kids[1]), Root(t), kids[0]);
      }
  }

  lemma OneAlone(s: Scrap)
    ensures OneAmongInserts([s], s.cat)
  {
    NoInserts();
    assert [s][..0] == [] && [s][0 + 1..] == [];
  }

  lemma {:induction false} TreeReplaces(t: Tree)
    requires Valid(t)
    ensures forall p :: p in Parts(t) ==> ReplacedRightly(p)
  {
    hide OneAmongInserts;
    match t
    case Leaf(_) =>
    case Reserved(kid) =>
      TreeReplaces(kid);
    case Node(v, a, kids) =>
      NodeLegal(t);
      if a.Reduce? && Replaces(a.n) && a.recipe.Put? {
        assert Root(kids[0]) == v.At(a.at + 0);
        AngleShape(kids[0]);
        assert LeavesOf(kids) == Leaves(kids[0]) by {
          assert kids[1..] == [] && Leaves(kids[0]) + [] == Leaves(kids[0]);
        }
      } else {
        forall i | 0 <= i < |kids|
          ensures forall p :: p in Parts(kids[i]) ==> ReplacedRightly(p)
        {
          TreeReplaces(kids[i]);
        }
        PartsOfReplaces(kids);
      }
  }

  lemma {:induction false} PartsOfReplaces(ts: seq<Tree>)
    requires forall i :: 0 <= i < |ts| ==> forall p :: p in Parts(ts[i]) ==> ReplacedRightly(p)
    ensures forall p :: p in PartsOf(ts) ==> ReplacedRightly(p)
  {
    if ts != [] {
      PartsOfReplaces(ts[1..]);
    }
  }
}
