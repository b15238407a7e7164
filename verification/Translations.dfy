/** From the token store back to derivations: the text of every scrap in every reachable state, expanded down to the
    texts of the input, is the typeset text of a derivation tree. */
module Translations {
  import opened Scraps
  import opened Productions
  import opened Parsing
  import opened Derivations
  import opened MathModes
  import opened Indentation
  import opened Conservation

  // ---------- expanding texts ----------

  /** The symbols and input texts that tokens stand for; texts below `base` are those of the input. */
  function Expand(st: Store, base: nat, ts: seq<Tok>, bound: nat): seq<Item<nat>>
    requires st.Ok() && bound <= st.Texts()
    requires forall j :: 0 <= j < |ts| && ts[j].Text? ==> ts[j].text < bound
    decreases bound, |ts|
  {
    if ts == [] then []
    else
      (match ts[0]
       case Chr(s) => [Glue(s)]
       case Text(u) => if u < base then [Piece(u)] else Expand(st, base, st.TextToks(u), u)
       case _ => [])
      + Expand(st, base, ts[1..], bound)
  }

  /** The expansion of text number `t`. */
  function ExpandText(st: Store, base: nat, t: nat): seq<Item<nat>>
    requires st.Ok() && t < st.Texts()
  {
    if t < base then [Piece(t)] else Expand(st, base, st.TextToks(t), t)
  }

  lemma {:induction false} ExpandAppend(st: Store, base: nat, a: seq<Tok>, b: seq<Tok>, bound: nat)
    requires st.Ok() && bound <= st.Texts()
    requires forall j :: 0 <= j < |a| && a[j].Text? ==> a[j].text < bound
    requires forall j :: 0 <= j < |b| && b[j].Text? ==> b[j].text < bound
    ensures Expand(st, base, a + b, bound) == Expand(st, base, a, bound) + Expand(st, base, b, bound)
  {
    if a == [] {
      assert a + b == b;
    } else {
      assert (a + b)[0] == a[0] && (a + b)[1..] == a[1..] + b;
      ExpandAppend(st, base, a[1..], b, bound);
    }
  }

  /** Store `st'` has the texts of `st`, except for what `make_reserved` did to the texts of the input. */
  predicate Extends(st: Store, st': Store, base: nat)
    requires st.Shaped() && st'.Shaped()
  {
    && base <= st.Texts() <= st'.Texts()
    && st'.starts[..|st.starts|] == st.starts
    && |st.toks| <= |st'.toks|
    && forall j :: st.starts[base] <= j < |st.toks| ==> st'.toks[j] == st.toks[j]
  }

  lemma {:induction false} ExpandExtends(st: Store, st': Store, base: nat, ts: seq<Tok>, bound: nat)
    requires st.Ok() && st'.Ok() && Extends(st, st', base) && bound <= st.Texts()
    requires forall j :: 0 <= j < |ts| && ts[j].Text? ==> ts[j].text < bound
    ensures Expand(st', base, ts, bound) == Expand(st, base, ts, bound)
    decreases bound, |ts|
  {
    if ts != [] {
      ExpandExtends(st, st', base, ts[1..], bound);
      if ts[0].Text? && ts[0].text >= base {
        var u := ts[0].text;
        TextExtends(st, st', base, u);
        ExpandExtends(st, st', base, st.TextToks(u), u);
      }
    }
  }

  lemma TextExtends(st: Store, st': Store, base: nat, u: nat)
    requires st.Ok() && st'.Ok() && Extends(st, st', base) && base <= u < st.Texts()
    ensures st'.TextToks(u) == st.TextToks(u)
  {
    assert st'.starts[u] == st'.starts[..|st.starts|][u];
    assert st'.starts[u + 1] == st'.starts[..|st.starts|][u + 1];
    assert st.starts[base] <= st.starts[u];
  }

  lemma ExpandTextExtends(st: Store, st': Store, base: nat, t: nat)
    requires st.Ok() && st'.Ok() && Extends(st, st', base) && t < st.Texts()
    ensures ExpandText(st', base, t) == ExpandText(st, base, t)
  {
    if t >= base {
      TextExtends(st, st', base, t);
      ExpandExtends(st, st', base, st.TextToks(t), t);
    }
  }

  /** The names of input scraps are the numbers of their texts. */
  function Names(items: seq<Item<Scrap>>): seq<Item<nat>> {
    if items == [] then []
    else [match items[0] case Piece(s) => Piece(s.trans) case Glue(s) => Glue(s)] + Names(items[1..])
  }

  lemma {:induction false} NamesAppend(a: seq<Item<Scrap>>, b: seq<Item<Scrap>>)
    ensures Names(a + b) == Names(a) + Names(b)
  {
    if a == [] {
      assert a + b == b;
    } else {
      assert (a + b)[1..] == a[1..] + b;
      NamesAppend(a[1..], b);
    }
  }

  // ---------- a scrap and its derivation ----------

  /** The boundaries of the scrap are those of the tree, and its text expands to the typeset text of the tree. */
  predicate Renders(t: Tree, s: Scrap, st: Store, base: nat)
    requires st.Ok()
  {
    && s.trans < st.Texts()
    && Ends(t) == Regs(s.left, s.right)
    && ExpandText(st, base, s.trans) == Names(Out(t))
  }

  /** Tree `t` is a derivation of scrap `s`: same category, same boundaries, and the scrap's text expands to the
      typeset text of the tree. */
  ghost predicate Derives(t: Tree, s: Scrap, st: Store, base: nat)
    requires st.Ok()
  {
    Valid(t) && Root(t) == s.cat && Renders(t, s, st, base)
  }

  /** From text `base` on, the store holds only symbols and references to texts: what productions make. */
  predicate Built(st: Store, base: nat)
    requires st.Shaped()
  {
    && base <= st.Texts()
    && forall j :: st.starts[base] <= j < |st.toks| ==> st.toks[j].Chr? || st.toks[j].Text?
  }

  /** Every scrap of a state has a derivation. */
  ghost predicate Derived(ts: seq<Tree>, ps: State, base: nat)
    requires Good(ps)
  {
    Built(ps.store, base) && AllDerive(ts, ps.scraps, ps.store, base)
  }

  // ---------- cooked tokens expand to recipe output ----------

  predicate KidsDerive(kids: seq<Tree>, at: nat, window: seq<Scrap>, st: Store, base: nat)
    requires st.Ok()
  {
    && at + |kids| <= |window|
    && forall i :: 0 <= i < |kids| ==> Renders(kids[i], window[at + i], st, base)
  }

  /** The recipe uses only the scraps `at, ..., at + n - 1`. */
  predicate KidsWithin(r: Recipe, at: nat, n: nat) {
    match r
    case End => true
    case Kid(i, rest) => at <= i < at + n && KidsWithin(rest, at, n)
    case Big(_, rest) => KidsWithin(rest, at, n)
    case Put(_, rest) => KidsWithin(rest, at, n)
  }

  lemma {:induction false} KidsOfWithin(r: Recipe, at: nat, n: nat)
    requires forall i :: i in KidsOf(r) ==> at <= i < at + n
    ensures KidsWithin(r, at, n)
  {
    match r
    case End =>
    case Kid(i, rest) =>
      assert i in KidsOf(r);
      assert forall j :: j in KidsOf(rest) ==> j in KidsOf(r);
      KidsOfWithin(rest, at, n);
    case Big(_, rest) =>
      assert KidsOf(rest) == KidsOf(r);
      KidsOfWithin(rest, at, n);
    case Put(_, rest) =>
      assert KidsOf(rest) == KidsOf(r);
      KidsOfWithin(rest, at, n);
  }

  lemma {:induction false} CookedEnds(r: Recipe, kids: seq<Tree>, at: nat, window: seq<Scrap>, regs: Regs, st: Store,
                                      base: nat)
    requires st.Ok() && KidsDerive(kids, at, window, st, base)
    requires InRange(r, |window|) && KidsWithin(r, at, |kids|)
    ensures RecipeEnds(r, kids, at, regs) == CookRegs(r, window, regs)
    decreases r
  {
    match r
    case End =>
    case Kid(i, rest) =>
      assert Renders(kids[i - at], window[at + (i - at)], st, base);
      CookedEnds(rest, kids, at, window, Meet(regs, window[i].left, window[i].right), st, base);
    case Big(s, rest) =>
      CookedEnds(rest, kids, at, window, Meet(regs, ModeOf(s), ModeOf(s)), st, base);
    case Put(_, rest) =>
      CookedEnds(rest, kids, at, window, regs, st, base);
  }

  predicate TextsBelow(ts: seq<Tok>, bound: nat) {
    forall j :: 0 <= j < |ts| && ts[j].Text? ==> ts[j].text < bound
  }

  lemma ExpandChr(st: Store, base: nat, s: Sym, rest: seq<Tok>, bound: nat)
    requires st.Ok() && bound <= st.Texts() && TextsBelow(rest, bound)
    ensures Expand(st, base, [Chr(s)] + rest, bound) == [Glue(s)] + Expand(st, base, rest, bound)
  {
    assert ([Chr(s)] + rest)[1..] == rest;
  }

  lemma NamesGlue(s: Sym, rest: seq<Item<Scrap>>)
    ensures Names([Glue(s)] + rest) == [Glue(s)] + Names(rest)
  {
    assert ([Glue(s)] + rest)[1..] == rest;
  }

  lemma ExpandToggle(st: Store, base: nat, from: Mathness, to: Mathness, rest: seq<Tok>, items: seq<Item<Scrap>>,
                     bound: nat)
    requires st.Ok() && bound <= st.Texts() && TextsBelow(rest, bound)
    requires Expand(st, base, rest, bound) == Names(items)
    ensures Expand(st, base, Toggle(from, to) + rest, bound) == Names(ToggleItems(from, to) + items)
  {
    hide Names, Expand, Store.Ok;
    var l, r, d := Chr(BraceL), Chr(BraceR), Chr(Dollar);
    var gl: Item<Scrap>, gr: Item<Scrap>, gd: Item<Scrap> := Glue(BraceL), Glue(BraceR), Glue(Dollar);
    if from.YesMath? && to.NoMath? {
      assert Toggle(from, to) + rest == [l] + ([r] + ([d] + rest));
      assert ToggleItems(from, to) + items == [gl] + ([gr] + ([gd] + items));
      ExpandChr(st, base, BraceL, [r] + ([d] + rest), bound);
      ExpandChr(st, base, BraceR, [d] + rest, bound);
      ExpandChr(st, base, Dollar, rest, bound);
      NamesGlue(BraceL, [gr] + ([gd] + items));
      NamesGlue(BraceR, [gd] + items);
      NamesGlue(Dollar, items);
    } else if from.NoMath? && to.YesMath? {
      assert Toggle(from, to) + rest == [d] + ([l] + ([r] + rest));
      assert ToggleItems(from, to) + items == [gd] + ([gl] + ([gr] + items));
      ExpandChr(st, base, Dollar, [l] + ([r] + rest), bound);
      ExpandChr(st, base, BraceL, [r] + rest, bound);
      ExpandChr(st, base, BraceR, rest, bound);
      NamesGlue(Dollar, [gl] + ([gr] + items));
      NamesGlue(BraceL, [gr] + items);
      NamesGlue(BraceR, items);
    } else {
      assert Toggle(from, to) + rest == rest && ToggleItems(from, to) + items == items;
    }
  }

  lemma ExpandRef(st: Store, base: nat, u: nat, rest: seq<Tok>, bound: nat)
    requires st.Ok() && u < bound <= st.Texts() && TextsBelow(rest, bound)
    ensures Expand(st, base, [Text(u)] + rest, bound) == ExpandText(st, base, u) + Expand(st, base, rest, bound)
  {
    assert ([Text(u)] + rest)[1..] == rest;
  }

  lemma Assoc3<T>(a: seq<T>, b: seq<T>, c: seq<T>)
    ensures a + b + c == a + (b + c)
  {
  }

  /** The tokens a recipe appends expand to the items that the derivation adds. */
  lemma {:induction false} CookedOut(r: Recipe, kids: seq<Tree>, at: nat, window: seq<Scrap>, cur: Mathness, st: Store,
                                     base: nat)
    requires st.Ok() && KidsDerive(kids, at, window, st, base)
    requires InRange(r, |window|) && KidsWithin(r, at, |kids|)
    requires TextsBelow(CookToks(r, window, cur), st.Texts())
    ensures Expand(st, base, CookToks(r, window, cur), st.Texts()) == Names(RecipeOut(r, kids, at, cur))
    decreases r, 0
  {
    match r
    case End =>
    case Kid(i, rest) =>
      CookedKid(i, rest, kids, at, window, cur, st, base);
    case Big(s, rest) =>
      var m := ModeOf(s);
      var toks := CookToks(rest, window, m);
      var items := RecipeOut(rest, kids, at, m);
      Assoc3(Toggle(cur, m), [Chr(s)], toks);
      Assoc3(ToggleItems(cur, m), [Glue(s)], items);
      RefsSuffix(Toggle(cur, m), [Chr(s)] + toks, st.Texts());
      RefsSuffix([Chr(s)], toks, st.Texts());
      CookedOut(rest, kids, at, window, m, st, base);
      ExpandChr(st, base, s, toks, st.Texts());
      NamesGlue(s, items);
      ExpandToggle(st, base, cur, m, [Chr(s)] + toks, [Glue(s)] + items, st.Texts());
    case Put(s, rest) =>
      var toks := CookToks(rest, window, cur);
      RefsSuffix([Chr(s)], toks, st.Texts());
      CookedOut(rest, kids, at, window, cur, st, base);
      ExpandChr(st, base, s, toks, st.Texts());
      NamesGlue(s, RecipeOut(rest, kids, at, cur));
  }

  lemma RefsSuffix(a: seq<Tok>, b: seq<Tok>, bound: nat)
    requires TextsBelow(a + b, bound)
    ensures TextsBelow(b, bound)
  {
    forall j | 0 <= j < |b| && b[j].Text?
      ensures b[j].text < bound
    {
      assert (a + b)[|a| + j] == b[j];
    }
  }

  lemma KidUnfolds(i: nat, rest: Recipe, kids: seq<Tree>, at: nat, window: seq<Scrap>, cur: Mathness, st: Store,
                   base: nat)
    requires st.Ok() && KidsDerive(kids, at, window, st, base)
    requires InRange(Kid(i, rest), |window|) && KidsWithin(Kid(i, rest), at, |kids|)
    ensures at <= i < at + |kids| && i < |window| && InRange(rest, |window|) && KidsWithin(rest, at, |kids|)
    ensures var s, kid := window[i], kids[i - at];
      var cur' := if s.left.MaybeMath? then cur else s.right;
      && s.trans < st.Texts() && ExpandText(st, base, s.trans) == Names(Out(kid))
      && CookToks(Kid(i, rest), window, cur) == Toggle(cur, s.left) + [Text(s.trans)] + CookToks(rest, window, cur')
      && RecipeOut(Kid(i, rest), kids, at, cur) == ToggleItems(cur, s.left) + Out(kid) + RecipeOut(rest, kids, at, cur')
  {
    hide Expand, ExpandText, Names, Out, Ends, Toggle, ToggleItems;
    assert Renders(kids[i - at], window[at + (i - at)], st, base);
  }

  lemma CookedKid(i: nat, rest: Recipe, kids: seq<Tree>, at: nat, window: seq<Scrap>, cur: Mathness, st: Store,
                  base: nat)
    requires st.Ok() && KidsDerive(kids, at, window, st, base)
    requires InRange(Kid(i, rest), |window|) && KidsWithin(Kid(i, rest), at, |kids|)
    requires TextsBelow(CookToks(Kid(i, rest), window, cur), st.Texts())
    ensures Expand(st, base, CookToks(Kid(i, rest), window, cur), st.Texts())
         == Names(RecipeOut(Kid(i, rest), kids, at, cur))
    decreases rest, 1
  {
    hide Expand, ExpandText, Names, RecipeOut, CookToks, Out, Ends, Toggle, ToggleItems, Store.Ok, KidsWithin,
         TextsBelow;
    KidUnfolds(i, rest, kids, at, window, cur, st, base);
    var s, kid := window[i], kids[i - at];
    var cur' := if s.left.MaybeMath? then cur else s.right;
    var toks := CookToks(rest, window, cur');
    var items := RecipeOut(rest, kids, at, cur');
    Assoc3(Toggle(cur, s.left), [Text(s.trans)], toks);
    Assoc3(ToggleItems(cur, s.left), Out(kid), items);
    RefsSuffix(Toggle(cur, s.left), [Text(s.trans)] + toks, st.Texts());
    RefsSuffix([Text(s.trans)], toks, st.Texts());
    CookedOut(rest, kids, at, window, cur', st, base);
    ExpandRef(st, base, s.trans, toks, st.Texts());
    NamesAppend(Out(kid), items);
    ExpandToggle(st, base, cur, s.left, [Text(s.trans)] + toks, Out(kid) + items, st.Texts());
  }

  // ---------- a step keeps derivations ----------

  /** Replacing a stretch of trees by one with the same leaves. */
  lemma SpliceLeaves(ts: seq<Tree>, at: nat, k: nat, t: Tree)
    requires at + k <= |ts| && Leaves(t) == LeavesOf(ts[at..at + k])
    ensures LeavesOf(ts[..at] + [t] + ts[at + k..]) == LeavesOf(ts)
  {
    assert ts == ts[..at] + (ts[at..at + k] + ts[at + k..]);
    LeavesOfAppend(ts[..at], ts[at..at + k] + ts[at + k..]);
    LeavesOfAppend(ts[at..at + k], ts[at + k..]);
    assert ts[..at] + [t] + ts[at + k..] == ts[..at] + ([t] + ts[at + k..]);
    LeavesOfAppend(ts[..at], [t] + ts[at + k..]);
    LeavesOfAppend([t], ts[at + k..]);
    assert [t][1..] == [] && LeavesOf([t]) == Leaves(t) + [];
  }

  /** The derivations after `make_reserved`. */
  function MarkTrees(ts: seq<Tree>, before: seq<Scrap>, after: seq<Scrap>): (r: seq<Tree>)
    requires |ts| == |before| == |after|
    ensures |r| == |ts|
    ensures forall i :: 0 <= i < |ts| ==> r[i] == if before[i] == after[i] then ts[i] else Reserved(ts[i])
  {
    seq(|ts|, i requires 0 <= i < |ts| => if before[i] == after[i] then ts[i] else Reserved(ts[i]))
  }

  lemma {:induction false} SameLeaves(ts: seq<Tree>, ts': seq<Tree>)
    requires |ts| == |ts'| && forall i :: 0 <= i < |ts| ==> Leaves(ts'[i]) == Leaves(ts[i])
    ensures LeavesOf(ts') == LeavesOf(ts)
  {
    if ts != [] {
      SameLeaves(ts[1..], ts'[1..]);
    }
  }

  ghost predicate AllDerive(ts: seq<Tree>, scraps: seq<Scrap>, st: Store, base: nat)
    requires st.Ok()
  {
    |ts| == |scraps| && forall i :: 0 <= i < |ts| ==> Derives(ts[i], scraps[i], st, base)
  }

  lemma AllDeriveExtends(ts: seq<Tree>, scraps: seq<Scrap>, st: Store, st': Store, base: nat)
    requires st.Ok() && st'.Ok() && Extends(st, st', base) && AllDerive(ts, scraps, st, base)
    ensures AllDerive(ts, scraps, st', base)
  {
    forall i | 0 <= i < |ts|
      ensures Derives(ts[i], scraps[i], st', base)
    {
      assert Derives(ts[i], scraps[i], st, base);
      ExpandTextExtends(st, st', base, scraps[i].trans);
    }
  }

  lemma AllDeriveMarked(ts: seq<Tree>, before: seq<Scrap>, after: seq<Scrap>, st: Store, base: nat)
    requires st.Ok() && AllDerive(ts, before, st, base) && ScrapsSameButReserved(before, after)
    ensures AllDerive(MarkTrees(ts, before, after), after, st, base)
    ensures LeavesOf(MarkTrees(ts, before, after)) == LeavesOf(ts)
  {
    var r := MarkTrees(ts, before, after);
    forall i | 0 <= i < |ts|
      ensures Derives(r[i], after[i], st, base)
    {
      assert Derives(ts[i], before[i], st, base) && ScrapSameButReserved(before[i], after[i]);
    }
    SameLeaves(ts, r);
  }

  /** `make_reserved` leaves the texts that productions built as they are. */
  lemma BaseExtends(a: Action, ps: State, base: nat)
    requires Good(ps) && ps.pos < |ps.scraps| && a.Reduce? && Applicable(a, ps) && Built(ps.store, base)
    ensures BaseStore(a, ps).Ok() && Extends(ps.store, BaseStore(a, ps), base) && Built(BaseStore(a, ps), base)
    ensures ScrapsSameButReserved(ps.scraps, BaseScraps(a, ps))
  {
    hide ReserveStore, ReserveScraps, Store.WellFounded;
    BaseGood(a, ps);
    if a.reserve.Some? {
      var from := ps.pos + a.reserve.value;
      ReserveIsReserving(ps.scraps, ps.store, from);
      var st := ReserveStore(ps.scraps, ps.store, from);
      forall j | ps.store.starts[base] <= j < |ps.store.toks|
        ensures st.toks[j] == ps.store.toks[j]
      {
        assert SameButReserved(ps.store.toks[j], st.toks[j]);
      }
    }
  }

  lemma AppendFreezeExtends(st: Store, ts: seq<Tok>, base: nat)
    requires st.Ok() && st.Append(ts).Freeze().Ok() && Built(st, base)
    requires forall j :: 0 <= j < |ts| ==> ts[j].Chr? || ts[j].Text?
    ensures Extends(st, st.Append(ts).Freeze(), base) && Built(st.Append(ts).Freeze(), base)
  {
    var r := st.Append(ts).Freeze();
    forall j | r.starts[base] <= j < |r.toks|
      ensures r.toks[j].Chr? || r.toks[j].Text?
    {
      if j >= |st.toks| {
        assert r.toks[j] == ts[j - |st.toks|];
      } else {
        assert r.toks[j] == st.toks[j];
      }
    }
  }

  /** The tree of a scrap made by a production. */
  function NewTree(a: Action, ps: State, ts: seq<Tree>, forceLines: bool): Tree
    requires |ts| == |ps.scraps| && a.Reduce? && ps.pos + a.at + a.k <= |ts|
  {
    Node(ViewAt(ps.scraps, ps.pos, forceLines), a, ts[ps.pos + a.at..ps.pos + a.at + a.k])
  }

  lemma SeenWell(ps: State, forceLines: bool)
    requires Good(ps) && ps.pos < |ps.scraps|
    ensures WellSeen(ViewAt(ps.scraps, ps.pos, forceLines))
  {
    assert GoodScrap(ps.scraps[ps.pos], ps.store);
    if ps.pos + 1 < |ps.scraps| {
      assert GoodScrap(ps.scraps[ps.pos + 1], ps.store);
      if ps.pos + 2 < |ps.scraps| {
        assert GoodScrap(ps.scraps[ps.pos + 2], ps.store);
      }
    }
  }

  /** The trees of the consumed scraps, seen from `pp`. */
  lemma WindowDerives(ts: seq<Tree>, ps: State, base: nat, at: nat, k: nat)
    requires Good(ps) && ps.pos < |ps.scraps| && Derived(ts, ps, base) && ps.pos + at + k <= |ts|
    ensures KidsDerive(ts[ps.pos + at..ps.pos + at + k], at, ps.scraps[ps.pos..], ps.store, base)
  {
    var kids := ts[ps.pos + at..ps.pos + at + k];
    var window := ps.scraps[ps.pos..];
    forall i | 0 <= i < |kids|
      ensures Renders(kids[i], window[at + i], ps.store, base)
    {
      assert window[at + i] == ps.scraps[ps.pos + at + i] && kids[i] == ts[ps.pos + at + i];
      assert Derives(ts[ps.pos + at + i], ps.scraps[ps.pos + at + i], ps.store, base);
    }
  }

  lemma KidsDeriveExtends(kids: seq<Tree>, at: nat, window: seq<Scrap>, st: Store, st': Store, base: nat)
    requires st.Ok() && st'.Ok() && Extends(st, st', base) && KidsDerive(kids, at, window, st, base)
    ensures KidsDerive(kids, at, window, st', base)
  {
    forall i | 0 <= i < |kids|
      ensures Renders(kids[i], window[at + i], st', base)
    {
      assert Renders(kids[i], window[at + i], st, base);
      ExpandTextExtends(st, st', base, window[at + i].trans);
    }
  }

  lemma LegalKidsWithin(a: Action, v: View)
    requires Legal(a, v) && a.Reduce?
    ensures KidsWithin(a.recipe, a.at, a.k)
  {
    UpToIs(a.at, a.k);
    KidsOfWithin(a.recipe, a.at, a.k);
  }

  /** The new text is the last one, and the store is otherwise extended by it. */
  lemma NewTextFrozen(a: Action, ps: State, base: nat)
    requires Good(ps) && ps.pos < |ps.scraps| && Built(ps.store, base) && a.Reduce? && Applicable(a, ps)
    ensures BaseStore(a, ps).Ok() && BaseStore(a, ps).Texts() == ps.store.Texts()
    ensures var st := ReducedStore(a, ps);
      && st.Ok() && st.Texts() == ps.store.Texts() + 1
      && st.TextToks(ps.store.Texts()) == CookToks(a.recipe, ps.scraps[ps.pos..], a.start)
      && Extends(BaseStore(a, ps), st, base) && Built(st, base)
  {
    var toks := CookToks(a.recipe, ps.scraps[ps.pos..], a.start);
    BaseGood(a, ps);
    BaseExtends(a, ps, base);
    NewToksGood(a, ps);
    AppendFreezeOk(BaseStore(a, ps), toks);
    AppendFreezeExtends(BaseStore(a, ps), toks, base);
  }

  lemma BaseKidsDerive(a: Action, ps: State, ts: seq<Tree>, base: nat)
    requires Good(ps) && ps.pos < |ps.scraps| && Derived(ts, ps, base) && a.Reduce? && Applicable(a, ps)
    ensures BaseStore(a, ps).Ok()
    ensures KidsDerive(ts[ps.pos + a.at..ps.pos + a.at + a.k], a.at, ps.scraps[ps.pos..], BaseStore(a, ps), base)
  {
    hide BaseStore, BaseScraps, KidsDerive, Extends, Expand, Store.WellFounded;
    BaseExtends(a, ps, base);
    WindowDerives(ts, ps, base, a.at, a.k);
    KidsDeriveExtends(ts[ps.pos + a.at..ps.pos + a.at + a.k], a.at, ps.scraps[ps.pos..], ps.store, BaseStore(a, ps),
                      base);
  }

  /** The text of the new scrap expands to the typeset text of the new tree. */
  lemma NewTextExpands(a: Action, ps: State, ts: seq<Tree>, forceLines: bool, base: nat)
    requires Good(ps) && ps.pos < |ps.scraps| && Derived(ts, ps, base) && a.Reduce? && Applicable(a, ps)
    requires KidsWithin(a.recipe, a.at, a.k)
    ensures ReducedStore(a, ps).Ok()
    ensures Renders(NewTree(a, ps, ts, forceLines), ReducedScrap(a, ps), ReducedStore(a, ps), base)
  {
    hide BaseStore, ReducedStore, Expand, CookToks, Extends, KidsDerive, Out, Ends, RecipeOut, RecipeEnds, Names,
         CookRegs;
    var kids := ts[ps.pos + a.at..ps.pos + a.at + a.k];
    var window := ps.scraps[ps.pos..];
    BaseKidsDerive(a, ps, ts, base);
    NewTextFrozen(a, ps, base);
    NewToksRefs(a, ps);
    var st := BaseStore(a, ps);
    CookedEnds(a.recipe, kids, a.at, window, Regs(a.start, a.start), st, base);
    CookedText(a, kids, window, st, ReducedStore(a, ps), base);
    NodeMade(ViewAt(ps.scraps, ps.pos, forceLines), a, kids);
  }

  lemma NodeMade(v: View, a: Action, kids: seq<Tree>)
    requires a.Reduce?
    ensures Ends(Node(v, a, kids)) == RecipeEnds(a.recipe, kids, a.at, Regs(a.start, a.start))
    ensures Out(Node(v, a, kids)) == RecipeOut(a.recipe, kids, a.at, a.start)
  {
  }

  lemma CookedText(a: Action, kids: seq<Tree>, window: seq<Scrap>, st: Store, st': Store, base: nat)
    requires a.Reduce? && st.Ok() && st'.Ok() && Extends(st, st', base) && KidsDerive(kids, a.at, window, st, base)
    requires InRange(a.recipe, |window|) && KidsWithin(a.recipe, a.at, |kids|)
    requires TextsBelow(CookToks(a.recipe, window, a.start), st.Texts())
    requires st'.Texts() == st.Texts() + 1 && st'.TextToks(st.Texts()) == CookToks(a.recipe, window, a.start)
    ensures ExpandText(st', base, st.Texts()) == Names(RecipeOut(a.recipe, kids, a.at, a.start))
  {
    CookedOut(a.recipe, kids, a.at, window, a.start, st, base);
    ExpandExtends(st, st', base, CookToks(a.recipe, window, a.start), st.Texts());
  }

  lemma NewToksRefs(a: Action, ps: State)
    requires Good(ps) && ps.pos < |ps.scraps| && a.Reduce? && Applicable(a, ps)
    ensures TextsBelow(CookToks(a.recipe, ps.scraps[ps.pos..], a.start), ps.store.Texts())
  {
    NewToksGood(a, ps);
  }

  lemma NewTreeDerives(a: Action, ps: State, ts: seq<Tree>, forceLines: bool, base: nat)
    requires Good(ps) && ps.pos < |ps.scraps| && Derived(ts, ps, base) && a.Reduce? && Applicable(a, ps)
    requires a == ActionAt(ps, forceLines)
    ensures ReducedStore(a, ps).Ok()
    ensures Derives(NewTree(a, ps, ts, forceLines), ReducedScrap(a, ps), ReducedStore(a, ps), base)
  {
    var v := ViewAt(ps.scraps, ps.pos, forceLines);
    ActionApplies(ps, forceLines);
    LegalKidsWithin(a, v);
    NewTextExpands(a, ps, ts, forceLines, base);
    NewTreeValid(a, ps, ts, forceLines, base);
  }

  lemma NewTreeValid(a: Action, ps: State, ts: seq<Tree>, forceLines: bool, base: nat)
    requires Good(ps) && ps.pos < |ps.scraps| && Derived(ts, ps, base) && a.Reduce? && Applicable(a, ps)
    requires a == ActionAt(ps, forceLines) && a.at + a.k <= 4
    ensures Valid(NewTree(a, ps, ts, forceLines))
  {
    SeenWell(ps, forceLines);
    NewTreeKids(a, ps, ts, forceLines, base);
    var t := NewTree(a, ps, ts, forceLines);
    NodeValid(t.view, a, t.kids);
  }

  lemma NewTreeKids(a: Action, ps: State, ts: seq<Tree>, forceLines: bool, base: nat)
    requires Good(ps) && ps.pos < |ps.scraps| && Derived(ts, ps, base) && a.Reduce? && Applicable(a, ps)
    requires a.at + a.k <= 4
    ensures var t := NewTree(a, ps, ts, forceLines);
      |t.kids| == a.k && forall i :: 0 <= i < a.k ==> Root(t.kids[i]) == t.view.At(a.at + i) && Valid(t.kids[i])
  {
    hide Derives, Valid;
    var t := NewTree(a, ps, ts, forceLines);
    forall i | 0 <= i < a.k
      ensures Root(t.kids[i]) == t.view.At(a.at + i) && Valid(t.kids[i])
    {
      KidSeen(ts, ps.scraps, ps.store, base, ps.pos, a.at + i, forceLines);
    }
  }

  lemma KidSeen(ts: seq<Tree>, scraps: seq<Scrap>, st: Store, base: nat, pos: nat, j: nat, forceLines: bool)
    requires st.Ok() && AllDerive(ts, scraps, st, base) && j < 4 && pos + j < |ts|
    ensures Valid(ts[pos + j]) && Root(ts[pos + j]) == ViewAt(scraps, pos, forceLines).At(j)
  {
    hide Valid, Renders, Root, Store.Ok;
    assert Derives(ts[pos + j], scraps[pos + j], st, base);
  }

  lemma NodeValid(v: View, a: Action, kids: seq<Tree>)
    requires WellSeen(v) && a == Production(v) && a.Reduce? && |kids| == a.k
    requires forall i :: 0 <= i < a.k ==> Root(kids[i]) == v.At(a.at + i) && Valid(kids[i])
    ensures Valid(Node(v, a, kids))
  {
  }

  // ---------- every reachable state ----------

  /** After a step every scrap still has a derivation, and the derivations cover the same input. */
  lemma StepDerives(ts: seq<Tree>, ps: State, forceLines: bool, base: nat) returns (ts': seq<Tree>)
    requires Good(ps) && ps.pos < |ps.scraps| && Derived(ts, ps, base)
    ensures Good(Step(ps, forceLines)) && Derived(ts', Step(ps, forceLines), base)
    ensures LeavesOf(ts') == LeavesOf(ts)
  {
    StepGood(ps, forceLines);
    ActionApplies(ps, forceLines);
    var a := ActionAt(ps, forceLines);
    match a
    case NoMatch =>
      ts' := ts;
    case Relabel(at, cat, d, n) =>
      ts' := RelabelDerives(a, ts, ps, forceLines, base);
    case Reduce(_, _, _, _, _, _, _, _) =>
      ts' := ReduceDerives(a, ts, ps, forceLines, base);
  }

  lemma RelabelDerives(a: Action, ts: seq<Tree>, ps: State, forceLines: bool, base: nat) returns (ts': seq<Tree>)
    requires Good(ps) && ps.pos < |ps.scraps| && Derived(ts, ps, base) && a.Relabel? && Applicable(a, ps)
    requires Matches(ViewAt(ps.scraps, ps.pos, forceLines), a) && a.at < 4
    ensures AllDerive(ts', Perform(a, ps).scraps, ps.store, base)
    ensures LeavesOf(ts') == LeavesOf(ts)
  {
    hide Derives, Valid, Leaves, WellSeen, Matches;
    var i := ps.pos + a.at;
    var v := ViewAt(ps.scraps, ps.pos, forceLines);
    SeenWell(ps, forceLines);
    assert Derives(ts[i], ps.scraps[i], ps.store, base);
    RelabelOne(v, a, ts[i], ps.scraps[i], ps.store, base);
    ts' := ts[i := Node(v, a, [ts[i]])];
    UpdateDerives(ts, ps.scraps, ps.store, base, i, Node(v, a, [ts[i]]), ps.scraps[i].(cat := a.cat));
    SameLeaves(ts, ts');
  }

  lemma RelabelOne(v: View, a: Action, kid: Tree, s: Scrap, st: Store, base: nat)
    requires WellSeen(v) && Matches(v, a) && a.Relabel? && st.Ok() && Derives(kid, s, st, base) && s.cat == v.At(a.at)
    ensures Derives(Node(v, a, [kid]), s.(cat := a.cat), st, base)
    ensures Leaves(Node(v, a, [kid])) == Leaves(kid)
  {
    RelabelNode(v, a, kid);
  }

  lemma RelabelNode(v: View, a: Action, kid: Tree)
    requires WellSeen(v) && Matches(v, a) && a.Relabel? && Valid(kid) && Root(kid) == v.At(a.at)
    ensures var t := Node(v, a, [kid]);
      Valid(t) && Root(t) == a.cat && Ends(t) == Ends(kid) && Out(t) == Out(kid) && Leaves(t) == Leaves(kid)
  {
    assert LeavesOf([kid]) == Leaves(kid) + LeavesOf([kid][1..]);
    assert [kid][1..] == [] && Leaves(kid) + [] == Leaves(kid);
  }

  lemma UpdateDerives(ts: seq<Tree>, scraps: seq<Scrap>, st: Store, base: nat, i: nat, t: Tree, s: Scrap)
    requires st.Ok() && AllDerive(ts, scraps, st, base) && i < |ts| && Derives(t, s, st, base)
    ensures AllDerive(ts[i := t], scraps[i := s], st, base)
  {
    var ts', scraps' := ts[i := t], scraps[i := s];
    forall j | 0 <= j < |ts'|
      ensures Derives(ts'[j], scraps'[j], st, base)
    {
      assert Derives(ts[j], scraps[j], st, base);
    }
    assert AllDerive(ts', scraps', st, base);
  }

  /** The derivations after `make_reserved`, and after the new text has been appended. */
  lemma MarkedDerive(a: Action, ts: seq<Tree>, ps: State, base: nat) returns (marked: seq<Tree>)
    requires Good(ps) && ps.pos < |ps.scraps| && Derived(ts, ps, base) && a.Reduce? && Applicable(a, ps)
    ensures ReducedStore(a, ps).Ok() && Built(ReducedStore(a, ps), base)
    ensures AllDerive(marked, BaseScraps(a, ps), ReducedStore(a, ps), base)
    ensures |marked| == |ts| && LeavesOf(marked) == LeavesOf(ts)
    ensures forall i :: 0 <= i < |ts| ==> marked[i] == ts[i] || marked[i] == Reserved(ts[i])
  {
    hide AllDerive, Extends, ReserveScraps, ReserveStore, ReducedStore;
    BaseExtends(a, ps, base);
    NewTextFrozen(a, ps, base);
    assert |ts| == |ps.scraps| by { AllDeriveLength(ts, ps, base); }
    marked := MarkTrees(ts, ps.scraps, BaseScraps(a, ps));
    AllDeriveMarked(ts, ps.scraps, BaseScraps(a, ps), ps.store, base);
    AllDeriveExtends(marked, BaseScraps(a, ps), ps.store, BaseStore(a, ps), base);
    AllDeriveExtends(marked, BaseScraps(a, ps), BaseStore(a, ps), ReducedStore(a, ps), base);
  }

  lemma AllDeriveLength(ts: seq<Tree>, ps: State, base: nat)
    requires Good(ps) && Derived(ts, ps, base)
    ensures |ts| == |ps.scraps|
  {
  }

  lemma ReduceDerives(a: Action, ts: seq<Tree>, ps: State, forceLines: bool, base: nat) returns (ts': seq<Tree>)
    requires Good(ps) && ps.pos < |ps.scraps| && Derived(ts, ps, base) && a.Reduce? && Applicable(a, ps)
    requires a == ActionAt(ps, forceLines)
    ensures Good(Perform(a, ps)) && Derived(ts', Perform(a, ps), base)
    ensures LeavesOf(ts') == LeavesOf(ts)
  {
    hide Derives, Valid, ReserveScraps, ReserveStore, ReducedStore, ReducedScrap, BaseScraps, BaseStore, Production,
      LeavesOf, Store.WellFounded;
    PerformGood(a, ps);
    NewTreeDerives(a, ps, ts, forceLines, base);
    var marked := MarkedDerive(a, ts, ps, base);
    var t := NewTree(a, ps, ts, forceLines);
    var i := ps.pos + a.at;
    ts' := marked[..i] + [t] + marked[i + a.k..];
    SpliceDerives(marked, BaseScraps(a, ps), ReducedStore(a, ps), base, i, a.k, t, ReducedScrap(a, ps));
    SameLeavesSlice(ts, marked, i, i + a.k);
    SpliceLeaves(marked, i, a.k, t);
  }

  lemma SpliceDerives(ts: seq<Tree>, scraps: seq<Scrap>, st: Store, base: nat, at: nat, k: nat, t: Tree, s: Scrap)
    requires st.Ok() && AllDerive(ts, scraps, st, base) && at + k <= |ts| && Derives(t, s, st, base)
    ensures AllDerive(ts[..at] + [t] + ts[at + k..], Splice(scraps, at, k, s), st, base)
  {
    hide Derives;
    var ts' := ts[..at] + [t] + ts[at + k..];
    var scraps' := Splice(scraps, at, k, s);
    forall i | 0 <= i < |ts'|
      ensures Derives(ts'[i], scraps'[i], st, base)
    {
      if i != at {
        var j := if i < at then i else i + k - 1;
        assert ts'[i] == ts[j] && scraps'[i] == scraps[j];
        assert Derives(ts[j], scraps[j], st, base);
      }
    }
  }

  lemma SameLeavesSlice(ts: seq<Tree>, marked: seq<Tree>, lo: nat, hi: nat)
    requires |ts| == |marked| && lo <= hi <= |ts|
    requires forall i :: 0 <= i < |ts| ==> marked[i] == ts[i] || marked[i] == Reserved(ts[i])
    ensures LeavesOf(ts[lo..hi]) == LeavesOf(marked[lo..hi])
  {
    SameLeaves(ts[lo..hi], marked[lo..hi]);
  }

  lemma {:induction false} ParseDerives(ts: seq<Tree>, ps: State, forceLines: bool, base: nat) returns (ts': seq<Tree>)
    requires Good(ps) && Derived(ts, ps, base)
    ensures Derived(ts', Parse(ps, forceLines), base)
    ensures LeavesOf(ts') == LeavesOf(ts)
    decreases |ps.scraps|, RankSum(ps.scraps), |ps.scraps| - ps.pos
  {
    if ps.pos >= |ps.scraps| {
      ts' := ts;
    } else {
      StepShrinks(ps, forceLines);
      var ts1 := StepDerives(ts, ps, forceLines, base);
      ts' := ParseDerives(ts1, Step(ps, forceLines), forceLines, base);
    }
  }

  // ---------- the result of translate ----------

  function OptTok(b: bool, s: Sym): seq<Tok> {
    if b then [Chr(s)] else []
  }

  function OptItem(b: bool, s: Sym): seq<Item<Scrap>> {
    if b then [Glue(s)] else []
  }

  /** The tokens that `translate` appends at the end: the remaining scraps from `i` on, each between dollar signs where
      its boundaries are in math mode, with blanks between them. */
  function JoinToks(scraps: seq<Scrap>, i: nat): seq<Tok>
    decreases |scraps| - i
  {
    if i >= |scraps| then []
    else
      OptTok(i != 0, Blank) + OptTok(scraps[i].left.YesMath?, Dollar)
      + [Text(scraps[i].trans)]
      + OptTok(scraps[i].right.YesMath?, Dollar) + JoinToks(scraps, i + 1)
  }

  /** The same for derivations. */
  function JoinOut(ts: seq<Tree>, i: nat): seq<Item<Scrap>>
    decreases |ts| - i
  {
    if i >= |ts| then []
    else
      OptItem(i != 0, Blank) + OptItem(Ends(ts[i]).init.YesMath?, Dollar)
      + Out(ts[i])
      + OptItem(Ends(ts[i]).cur.YesMath?, Dollar) + JoinOut(ts, i + 1)
  }

  /** What `translate` does to the token store; its result is the last text. */
  function Translated(input: seq<Scrap>, st: Store, forceLines: bool): Store
    requires Good(State(input, 0, st))
  {
    var ps := Parse(State(input, 0, st), forceLines);
    ps.store.Append(JoinToks(ps.scraps, 0)).Freeze()
  }

  /** Tokens that expand to some items. */
  predicate Spells(ts: seq<Tok>, items: seq<Item<Scrap>>, st: Store, base: nat)
    requires st.Ok()
  {
    TextsBelow(ts, st.Texts()) && Expand(st, base, ts, st.Texts()) == Names(items)
  }

  lemma SpellsAppend(a: seq<Tok>, b: seq<Tok>, ga: seq<Item<Scrap>>, gb: seq<Item<Scrap>>, st: Store, base: nat)
    requires st.Ok() && Spells(a, ga, st, base) && Spells(b, gb, st, base)
    ensures Spells(a + b, ga + gb, st, base)
  {
    ExpandAppend(st, base, a, b, st.Texts());
    NamesAppend(ga, gb);
  }

  lemma SpellsOpt(st: Store, base: nat, b: bool, s: Sym)
    requires st.Ok()
    ensures Spells(OptTok(b, s), OptItem(b, s), st, base)
  {
    var g: Item<Scrap> := Glue(s);
    assert [Chr(s)][1..] == [] && [g][1..] == [];
  }

  lemma SpellsRef(t: Tree, s: Scrap, st: Store, base: nat)
    requires st.Ok() && Renders(t, s, st, base)
    ensures Spells([Text(s.trans)], Out(t), st, base)
  {
    ExpandRef(st, base, s.trans, [], st.Texts());
    assert [Text(s.trans)] + [] == [Text(s.trans)];
  }

  lemma {:induction false} JoinExpands(ts: seq<Tree>, scraps: seq<Scrap>, st: Store, base: nat, i: nat)
    requires st.Ok() && AllDerive(ts, scraps, st, base)
    ensures Spells(JoinToks(scraps, i), JoinOut(ts, i), st, base)
    decreases |scraps| - i
  {
    if i < |scraps| {
      JoinExpands(ts, scraps, st, base, i + 1);
      assert Derives(ts[i], scraps[i], st, base);
      JoinOne(ts[i], scraps[i], st, base, i, JoinToks(scraps, i + 1), JoinOut(ts, i + 1));
    }
  }

  lemma JoinOne(t: Tree, s: Scrap, st: Store, base: nat, i: nat, toks: seq<Tok>, items: seq<Item<Scrap>>)
    requires st.Ok() && Renders(t, s, st, base) && Spells(toks, items, st, base)
    ensures Spells(OptTok(i != 0, Blank) + OptTok(s.left.YesMath?, Dollar) + [Text(s.trans)]
                   + OptTok(s.right.YesMath?, Dollar) + toks,
                   OptItem(i != 0, Blank) + OptItem(s.left.YesMath?, Dollar) + Out(t)
                   + OptItem(s.right.YesMath?, Dollar) + items, st, base)
  {
    var a, ga := OptTok(i != 0, Blank), OptItem(i != 0, Blank);
    var b, gb := OptTok(s.left.YesMath?, Dollar), OptItem(s.left.YesMath?, Dollar);
    var d, gd := OptTok(s.right.YesMath?, Dollar), OptItem(s.right.YesMath?, Dollar);
    SpellsOpt(st, base, i != 0, Blank);
    SpellsOpt(st, base, s.left.YesMath?, Dollar);
    SpellsOpt(st, base, s.right.YesMath?, Dollar);
    SpellsRef(t, s, st, base);
    SpellsAppend(a, b, ga, gb, st, base);
    SpellsAppend(a + b, [Text(s.trans)], ga + gb, Out(t), st, base);
    SpellsAppend(a + b + [Text(s.trans)], d, ga + gb + Out(t), gd, st, base);
    SpellsAppend(a + b + [Text(s.trans)] + d, toks, ga + gb + Out(t) + gd, items, st, base);
  }

  lemma OptRuns(b: bool, s: Sym, m: bool)
    requires s.Dollar? || s.Blank?
    ensures Run(OptItem(b, s), m) == Some(if b && s.Dollar? then !m else m)
  {
    RunCons(Glue(s), [], m);
    var g: Item<Scrap> := Glue(s);
    assert [g] + [] == [g];
  }

  /** The join starts and ends outside math, and so does every piece of it. */
  lemma {:induction false} JoinRuns(ts: seq<Tree>, i: nat)
    requires forall j :: 0 <= j < |ts| ==> RunsBetween(Out(ts[j]), Ends(ts[j]))
    ensures Run(JoinOut(ts, i), false) == Some(false)
    decreases |ts| - i
  {
    if i < |ts| {
      JoinRuns(ts, i + 1);
      JoinOneRuns(i != 0, Out(ts[i]), Ends(ts[i]), JoinOut(ts, i + 1));
    }
  }

  lemma JoinOneRuns(blank: bool, items: seq<Item<Scrap>>, e: Regs, rest: seq<Item<Scrap>>)
    requires RunsBetween(items, e) && Run(rest, false) == Some(false)
    ensures Run(OptItem(blank, Blank) + OptItem(e.init.YesMath?, Dollar) + items + OptItem(e.cur.YesMath?, Dollar)
                + rest,
                false) == Some(false)
  {
    var a, b, d := OptItem(blank, Blank), OptItem(e.init.YesMath?, Dollar), OptItem(e.cur.YesMath?, Dollar);
    OptRuns(blank, Blank, false);
    OptRuns(e.init.YesMath?, Dollar, false);
    OptRuns(e.cur.YesMath?, Dollar, e.cur.YesMath?);
    RunAppend(a, b, false);
    RunAppend(a + b, items, false);
    RunAppend(a + b + items, d, false);
    RunAppend(a + b + items + d, rest, false);
  }

  lemma OptNet(b: bool, s: Sym)
    requires s.Dollar? || s.Blank?
    ensures NetIndent(OptItem(b, s)) == 0 && Visible(OptItem(b, s)) == []
  {
    var g: Item<Scrap> := Glue(s);
    assert [g][1..] == [];
  }

  lemma {:induction false} JoinIndents(ts: seq<Tree>, i: nat)
    requires i <= |ts|
    ensures NetIndent(JoinOut(ts, i)) == SumNet(ts[i..])
    decreases |ts| - i
  {
    if i < |ts| {
      JoinIndents(ts, i + 1);
      var a, b := OptItem(i != 0, Blank), OptItem(Ends(ts[i]).init.YesMath?, Dollar);
      var d := OptItem(Ends(ts[i]).cur.YesMath?, Dollar);
      OptNet(i != 0, Blank);
      OptNet(Ends(ts[i]).init.YesMath?, Dollar);
      OptNet(Ends(ts[i]).cur.YesMath?, Dollar);
      NetAppend(a, b);
      NetAppend(a + b, Out(ts[i]));
      NetAppend(a + b + Out(ts[i]), d);
      NetAppend(a + b + Out(ts[i]) + d, JoinOut(ts, i + 1));
      assert ts[i..][1..] == ts[i + 1..];
    }
  }

  lemma {:induction false} JoinVisible(ts: seq<Tree>, i: nat)
    requires i <= |ts| && AllShow(ts)
    ensures Visible(JoinOut(ts, i)) == Shown(PartsOf(ts[i..]))
    decreases |ts| - i
  {
    if i < |ts| {
      JoinVisible(ts, i + 1);
      JoinOneVisible(i != 0, Out(ts[i]), Ends(ts[i]), JoinOut(ts, i + 1));
      PartsOfNext(ts, i);
    }
  }

  lemma JoinOneVisible(blank: bool, items: seq<Item<Scrap>>, e: Regs, rest: seq<Item<Scrap>>)
    ensures Visible(OptItem(blank, Blank) + OptItem(e.init.YesMath?, Dollar) + items + OptItem(e.cur.YesMath?, Dollar)
                    + rest)
         == Visible(items) + Visible(rest)
  {
    var a, b, d := OptItem(blank, Blank), OptItem(e.init.YesMath?, Dollar), OptItem(e.cur.YesMath?, Dollar);
    OptNet(blank, Blank);
    OptNet(e.init.YesMath?, Dollar);
    OptNet(e.cur.YesMath?, Dollar);
    VisibleAppend(a, b);
    VisibleAppend(a + b, items);
    VisibleAppend(a + b + items, d);
    VisibleAppend(a + b + items + d, rest);
  }

  // ---------- the theorems about translate ----------

  /** The derivations of the input: one leaf for every scrap. */
  function Seeds(input: seq<Scrap>): (ts: seq<Tree>)
    ensures |ts| == |input| && forall i :: 0 <= i < |input| ==> ts[i] == Leaf(input[i])
  {
    seq(|input|, i requires 0 <= i < |input| => Leaf(input[i]))
  }

  lemma {:induction false} SeedsLeaves(ts: seq<Tree>, input: seq<Scrap>)
    requires |ts| == |input| && forall i :: 0 <= i < |input| ==> ts[i] == Leaf(input[i])
    ensures LeavesOf(ts) == input
  {
    if ts != [] {
      SeedsLeaves(ts[1..], input[1..]);
    }
  }

  lemma SeedsDerive(input: seq<Scrap>, st: Store)
    requires Good(State(input, 0, st))
    ensures Derived(Seeds(input), State(input, 0, st), st.Texts())
    ensures LeavesOf(Seeds(input)) == input
  {
    var ts := Seeds(input);
    forall i | 0 <= i < |ts|
      ensures Derives(ts[i], input[i], st, st.Texts())
    {
      assert GoodScrap(input[i], st);
      assert [Piece(input[i])][1..] == [];
    }
    SeedsLeaves(ts, input);
  }

  /** The parser is sound: the text that `translate` returns is the join of derivations of the grammar whose leaves are
      the input scraps, each once and in order. */
  lemma TranslateDerives(input: seq<Scrap>, st: Store, forceLines: bool) returns (forest: seq<Tree>)
    requires Good(State(input, 0, st))
    ensures forall i :: 0 <= i < |forest| ==> Valid(forest[i])
    ensures LeavesOf(forest) == input
    ensures var r := Translated(input, st, forceLines);
      && r.Ok() && r.Pending() == [] && Built(r, st.Texts()) && r.Texts() > st.Texts()
      && ExpandText(r, st.Texts(), r.Texts() - 1) == Names(JoinOut(forest, 0))
  {
    var base := st.Texts();
    SeedsDerive(input, st);
    forest := ParseDerives(Seeds(input), State(input, 0, st), forceLines, base);
    var ps := Parse(State(input, 0, st), forceLines);
    var toks := JoinToks(ps.scraps, 0);
    JoinExpands(forest, ps.scraps, ps.store, base, 0);
    JoinToksKinds(ps.scraps, 0);
    AppendFreezeOk(ps.store, toks);
    AppendFreezeExtends(ps.store, toks, base);
    ExpandExtends(ps.store, Translated(input, st, forceLines), base, toks, ps.store.Texts());
    forall i | 0 <= i < |forest|
      ensures Valid(forest[i])
    {
      assert Derives(forest[i], ps.scraps[i], ps.store, base);
    }
  }

  lemma {:induction false} JoinToksKinds(scraps: seq<Scrap>, i: nat)
    ensures forall j :: 0 <= j < |JoinToks(scraps, i)| ==> JoinToks(scraps, i)[j].Chr? || JoinToks(scraps, i)[j].Text?
    decreases |scraps| - i
  {
    if i < |scraps| {
      JoinToksKinds(scraps, i + 1);
    }
  }

  /** Math mode: typesetting the text that `translate` returns starts and ends outside math, and meets every scrap of
      the input, and every symbol that a production added, in a mode that suits it. */
  lemma TranslateRuns(forest: seq<Tree>)
    requires forall i :: 0 <= i < |forest| ==> Valid(forest[i])
    ensures Run(JoinOut(forest, 0), false) == Some(false)
  {
    forall i | 0 <= i < |forest|
      ensures RunsBetween(Out(forest[i]), Ends(forest[i]))
    {
      TreeRuns(forest[i]);
    }
    JoinRuns(forest, 0);
  }

  /** Conservation: the text that `translate` returns shows every scrap of the input once and in order, but for
      prelangle and prerangle scraps that became a less or a greater sign. */
  lemma TranslateConserves(forest: seq<Tree>)
    requires forall i :: 0 <= i < |forest| ==> Valid(forest[i])
    ensures Covered(PartsOf(forest)) == LeavesOf(forest)
    ensures Visible(JoinOut(forest, 0)) == Shown(PartsOf(forest))
    ensures forall p :: p in PartsOf(forest) ==> ReplacedRightly(p)
  {
    forall i | 0 <= i < |forest|
      ensures Covered(Parts(forest[i])) == Leaves(forest[i]) && Shows(forest[i])
      ensures forall p :: p in Parts(forest[i]) ==> ReplacedRightly(p)
    {
      TreeConserves(forest[i]);
      TreeReplaces(forest[i]);
    }
    LeavesOfCovered(forest);
    PartsOfReplaces(forest);
    JoinVisible(forest, 0);
    assert forest[0..] == forest;
  }

  /** Indentation: what is left open at the end is two indents for every fn_decl scrap that was not reduced further, and
      what was lost in end_arg scraps. */
  lemma TranslateIndents(forest: seq<Tree>)
    requires forall i :: 0 <= i < |forest| ==> Valid(forest[i])
    requires forall s :: s in LeavesOf(forest) ==> !s.cat.FnDecl?
    ensures NetIndent(JoinOut(forest, 0)) == SumOpen(forest) + LostIn(forest)
    ensures (forall s :: s in LeavesOf(forest) ==> !s.cat.EndArg?) ==> LostIn(forest) == 0
  {
    forall i | 0 <= i < |forest|
      ensures NetIndent(Out(forest[i])) == Open(Root(forest[i])) + Lost(forest[i])
      ensures (forall s :: s in LeavesOf(forest) ==> !s.cat.EndArg?) ==> Lost(forest[i]) == 0
    {
      forall s | s in Leaves(forest[i]) ensures s in LeavesOf(forest) { LeavesOfHas(forest, i, s); }
      TreeIndents(forest[i]);
      if forall s :: s in LeavesOf(forest) ==> !s.cat.EndArg? {
        NothingLost(forest[i]);
      }
    }
    SumNetIs(forest);
    JoinIndents(forest, 0);
    assert forest[0..] == forest;
    if forall s :: s in LeavesOf(forest) ==> !s.cat.EndArg? {
      NothingLostIn(forest);
    }
  }

  // ---------- the tokens of the input ----------

  /** The token memory has only grown, and identifiers may have become reserved words. */
  predicate Later(st: Store, st': Store) {
    |st.toks| <= |st'.toks| && forall j :: 0 <= j < |st.toks| ==> SameButReserved(st.toks[j], st'.toks[j])
  }

  lemma LaterTrans(a: Store, b: Store, c: Store)
    requires Later(a, b) && Later(b, c)
    ensures Later(a, c)
  {
    forall j | 0 <= j < |a.toks|
      ensures SameButReserved(a.toks[j], c.toks[j])
    {
      assert SameButReserved(a.toks[j], b.toks[j]) && SameButReserved(b.toks[j], c.toks[j]);
    }
  }

  lemma LaterAppend(st: Store, st': Store, ts: seq<Tok>)
    requires ToksSameButReserved(st.toks, st'.toks)
    ensures Later(st, st'.Append(ts).Freeze())
  {
  }

  lemma PerformLater(a: Action, ps: State)
    requires Good(ps) && ps.pos < |ps.scraps| && Applicable(a, ps)
    ensures Later(ps.store, Perform(a, ps).store)
  {
    hide ReserveStore, ReserveScraps, ReducedScrap, MarkStore, CookToks;
    if a.Reduce? && a.reserve.Some? {
      ReserveIsReserving(ps.scraps, ps.store, ps.pos + a.reserve.value);
      LaterAppend(ps.store, BaseStore(a, ps), CookToks(a.recipe, ps.scraps[ps.pos..], a.start));
    }
  }

  lemma {:induction false} ParseLater(ps: State, forceLines: bool)
    requires Good(ps)
    ensures Later(ps.store, Parse(ps, forceLines).store)
    decreases |ps.scraps|, RankSum(ps.scraps), |ps.scraps| - ps.pos
  {
    if ps.pos < |ps.scraps| {
      StepGood(ps, forceLines);
      StepShrinks(ps, forceLines);
      ActionApplies(ps, forceLines);
      PerformLater(ActionAt(ps, forceLines), ps);
      ParseLater(Step(ps, forceLines), forceLines);
      LaterTrans(ps.store, Step(ps, forceLines).store, Parse(ps, forceLines).store);
    }
  }

  /** The tokens of the input texts are still there after `translate`, up to identifiers made reserved. */
  lemma TranslateKeepsTokens(input: seq<Scrap>, st: Store, forceLines: bool)
    requires Good(State(input, 0, st))
    ensures Later(st, Translated(input, st, forceLines))
    ensures st.starts <= Translated(input, st, forceLines).starts
  {
    ParseLater(State(input, 0, st), forceLines);
    var ps := Parse(State(input, 0, st), forceLines);
    forall j | 0 <= j < |st.toks|
      ensures SameButReserved(st.toks[j], Translated(input, st, forceLines).toks[j])
    {
      assert SameButReserved(st.toks[j], ps.store.toks[j]);
    }
    SeedsDerive(input, st);
    ParseStarts(State(input, 0, st), forceLines);
  }

  lemma {:induction false} ParseStarts(ps: State, forceLines: bool)
    requires Good(ps)
    ensures ps.store.starts <= Parse(ps, forceLines).store.starts
    decreases |ps.scraps|, RankSum(ps.scraps), |ps.scraps| - ps.pos
  {
    if ps.pos < |ps.scraps| {
      StepGood(ps, forceLines);
      StepShrinks(ps, forceLines);
      ActionApplies(ps, forceLines);
      PerformStarts(ActionAt(ps, forceLines), ps);
      ParseStarts(Step(ps, forceLines), forceLines);
    }
  }

  lemma PerformStarts(a: Action, ps: State)
    requires Good(ps) && ps.pos < |ps.scraps| && Applicable(a, ps)
    ensures ps.store.starts <= Perform(a, ps).store.starts
  {
  }
}
