/** Math mode: the typeset text of a derivation runs from the mode of its left boundary to that of its right one. */
module MathModes {
  import opened Scraps
  import opened Productions
  import opened Parsing
  import opened Derivations

  /** Typesetting from math mode (`m`) or horizontal mode: `None` when something is met in a mode it does not suit,
      otherwise the mode at the end. A dollar sign toggles the mode. */
  function Run(items: seq<Item<Scrap>>, m: bool): Option<bool> {
    if items == [] then Some(m)
    else
      match items[0]
      case Piece(s) =>
        if s.left.MaybeMath? then Run(items[1..], m)
        else if s.left.YesMath? == m then Run(items[1..], s.right.YesMath?)
        else None
      case Glue(s) =>
        if s.Dollar? then Run(items[1..], !m)
        else if Suits(s, if m then YesMath else NoMath) then Run(items[1..], m)
        else None
  }

  lemma {:induction false} RunAppend(a: seq<Item<Scrap>>, b: seq<Item<Scrap>>, m: bool)
    ensures Run(a + b, m) == match Run(a, m) { case None => None case Some(m') => Run(b, m') }
  {
    if a == [] {
      assert a + b == b;
    } else {
      assert (a + b)[1..] == a[1..] + b;
      match a[0]
      case Piece(s) =>
        if s.left.MaybeMath? { RunAppend(a[1..], b, m); } else { RunAppend(a[1..], b, s.right.YesMath?); }
      case Glue(s) => RunAppend(a[1..], b, if s.Dollar? then !m else m);
    }
  }

  /** Text with boundaries `e`: where they are definite it runs from the first to the second; where they are not it runs
      in either mode and does not change it. */
  predicate RunsBetween(items: seq<Item<Scrap>>, e: Regs) {
    && (e.init.MaybeMath? <==> e.cur.MaybeMath?)
    && (if e.init.MaybeMath? then Run(items, true) == Some(true) && Run(items, false) == Some(false)
        else Run(items, e.init.YesMath?) == Some(e.cur.YesMath?))
  }

  lemma RunCons(x: Item<Scrap>, rest: seq<Item<Scrap>>, m: bool)
    requires x.Glue?
    ensures Run([x] + rest, m) ==
            if x.sym.Dollar? then Run(rest, !m)
            else if Suits(x.sym, if m then YesMath else NoMath) then Run(rest, m) else None
  {
    assert ([x] + rest)[1..] == rest;
  }

  lemma RunToggle(from: Mathness, to: Mathness)
    requires !from.MaybeMath? && !to.MaybeMath?
    ensures Run(ToggleItems(from, to), from.YesMath?) == Some(to.YesMath?)
  {
    var l: Item<Scrap> := Glue(BraceL);
    var r: Item<Scrap> := Glue(BraceR);
    var d: Item<Scrap> := Glue(Dollar);
    if from.YesMath? && to.NoMath? {
      assert ToggleItems(from, to) == [l] + ([r] + ([d] + []));
      RunCons(l, [r] + ([d] + []), true);
      RunCons(r, [d] + [], true);
      RunCons(d, [], true);
    } else if from.NoMath? && to.YesMath? {
      assert ToggleItems(from, to) == [d] + ([l] + ([r] + []));
      RunCons(d, [l] + ([r] + []), false);
      RunCons(l, [r] + [], true);
      RunCons(r, [], true);
    }
  }

  /** Appending text that runs between `e` to text that runs between `regs`, with a toggle in between if needed. */
  lemma MeetRuns(a: seq<Item<Scrap>>, regs: Regs, b: seq<Item<Scrap>>, e: Regs)
    requires RunsBetween(a, regs) && RunsBetween(b, e)
    ensures RunsBetween(a + ToggleItems(regs.cur, e.init) + b, Meet(regs, e.init, e.cur))
  {
    var t := ToggleItems<Scrap>(regs.cur, e.init);
    if regs.cur.MaybeMath? || e.init.MaybeMath? {
      assert a + t + b == a + b;
      RunAppend(a, b, true);
      RunAppend(a, b, false);
    } else {
      RunToggle(regs.cur, e.init);
      assert a + t + b == a + (t + b);
      RunAppend(a, t + b, regs.init.YesMath?);
      RunAppend(t, b, regs.cur.YesMath?);
    }
  }

  /** A symbol suits the mode `big_app` puts it in. */
  lemma GlueRuns(s: Sym)
    requires !s.Dollar?
    ensures RunsBetween([Glue(s)], Regs(ModeOf(s), ModeOf(s)))
    ensures forall m: bool :: Suits(s, if m then YesMath else NoMath) ==> Run([Glue(s)], m) == Some(m)
  {
    var g: Item<Scrap> := Glue(s);
    assert [g][1..] == [];
  }

  lemma PutRuns(a: seq<Item<Scrap>>, regs: Regs, s: Sym, known: Mathness)
    requires RunsBetween(a, regs) && !s.Dollar? && Suits(s, known) && (known.MaybeMath? || known == regs.cur)
    ensures RunsBetween(a + [Glue(s)], regs)
  {
    GlueRuns(s);
    RunAppend(a, [Glue(s)], true);
    RunAppend(a, [Glue(s)], false);
  }

  lemma Assoc<T>(a: seq<T>, b: seq<T>, c: seq<T>, d: seq<T>)
    ensures a + b + c + d == a + (b + c + d)
  {
  }

  /** Text `a` followed by what a recipe makes. */
  lemma {:induction false} RecipeRuns(a: seq<Item<Scrap>>, r: Recipe, kids: seq<Tree>, at: nat, regs: Regs,
                                      known: Mathness)
    requires RunsBetween(a, regs)
    requires forall i :: 0 <= i < |kids| ==> RunsBetween(Out(kids[i]), Ends(kids[i]))
    requires PutsSafely(r, known) && (known.MaybeMath? || known == regs.cur)
    ensures RunsBetween(a + RecipeOut(r, kids, at, regs.cur), RecipeEnds(r, kids, at, regs))
    decreases r
  {
    match r
    case End =>
      assert a + [] == a;
    case Kid(i, rest) =>
      if at <= i < at + |kids| {
        var k := kids[i - at];
        var e := Ends(k);
        var b := a + ToggleItems(regs.cur, e.init) + Out(k);
        MeetRuns(a, regs, Out(k), e);
        RecipeRuns(b, rest, kids, at, Meet(regs, e.init, e.cur), MaybeMath);
        Assoc(a, ToggleItems(regs.cur, e.init), Out(k), RecipeOut(rest, kids, at, Meet(regs, e.init, e.cur).cur));
      } else {
        RecipeRuns(a, rest, kids, at, regs, MaybeMath);
      }
    case Big(s, rest) =>
      var m := ModeOf(s);
      var b := a + ToggleItems(regs.cur, m) + [Glue(s)];
      GlueRuns(s);
      MeetRuns(a, regs, [Glue(s)], Regs(m, m));
      RecipeRuns(b, rest, kids, at, Meet(regs, m, m), if s.Indent? then NoMath else MaybeMath);
      Assoc(a, ToggleItems(regs.cur, m), [Glue(s)], RecipeOut(rest, kids, at, m));
    case Put(s, rest) =>
      PutRuns(a, regs, s, known);
      RecipeRuns(a + [Glue(s)], rest, kids, at, regs, known);
      assert a + [Glue(s)] + RecipeOut(rest, kids, at, regs.cur) ==
             a + ([Glue(s)] + RecipeOut(rest, kids, at, regs.cur));
  }

  /** The math theorem: the text of every derivation runs between its boundaries. Every scrap of the input is met in
      its own mode, layout symbols in horizontal mode and braces and relations in math mode. */
  lemma {:induction false} TreeRuns(t: Tree)
    requires Valid(t)
    ensures RunsBetween(Out(t), Ends(t))
  {
    match t
    case Leaf(s) =>
      assert [Piece(s)][1..] == [];
    case Reserved(kid) =>
      TreeRuns(kid);
    case Node(v, a, kids) =>
      forall i | 0 <= i < |kids|
        ensures RunsBetween(Out(kids[i]), Ends(kids[i]))
      {
        TreeRuns(kids[i]);
      }
      NodeLegal(t);
      if a.Reduce? {
        NodeRuns(a, v, kids);
      }
  }

  lemma NodeRuns(a: Action, v: View, kids: seq<Tree>)
    requires a.Reduce? && PutsSafely(a.recipe, a.start)
    requires a.start.MaybeMath?
             || (a.start.YesMath? && (a.recipe == Put(LessSign, End) || a.recipe == Put(GreaterSign, End)))
    requires forall i :: 0 <= i < |kids| ==> RunsBetween(Out(kids[i]), Ends(kids[i]))
    ensures RunsBetween(RecipeOut(a.recipe, kids, a.at, a.start),
                        RecipeEnds(a.recipe, kids, a.at, Regs(a.start, a.start)))
  {
    var e := Regs(a.start, a.start);
    RecipeRuns([], a.recipe, kids, a.at, e, a.start);
    assert [] + RecipeOut(a.recipe, kids, a.at, a.start) == RecipeOut(a.recipe, kids, a.at, a.start);
  }
}
