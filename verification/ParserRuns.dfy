/** Runs of the scrap parser: what holds in every state that it reaches, and what it leaves alone. */
module ParserRuns {
  import opened Scraps
  import opened Productions
  import opened Parsing
  import opened Derivations
  import opened MathModes
  import opened Indentation
  import opened Conservation
  import opened Translations
  import TokenTrees

  // ---------- every reachable state ----------

  /** The state after `k` passes through the loop of `translate`, or the last one. */
  function After(ps: State, forceLines: bool, k: nat): (r: State)
    requires Good(ps)
    ensures Good(r)
    decreases k
  {
    if k == 0 || ps.pos >= |ps.scraps| then ps
    else
      StepGood(ps, forceLines);
      After(Step(ps, forceLines), forceLines, k - 1)
  }

  lemma {:induction false} AfterDerives(ts: seq<Tree>, ps: State, forceLines: bool, base: nat, k: nat)
    returns (ts': seq<Tree>)
    requires Good(ps) && Derived(ts, ps, base)
    ensures Derived(ts', After(ps, forceLines, k), base) && LeavesOf(ts') == LeavesOf(ts)
    decreases k
  {
    hide Derived, Leaves, LeavesOf, Step, Good;
    if k == 0 || ps.pos >= |ps.scraps| {
      ts' := ts;
    } else {
      var ts1 := StepDerives(ts, ps, forceLines, base);
      ts' := AfterDerives(ts1, Step(ps, forceLines), forceLines, base, k - 1);
    }
  }

  /** The laws for a scrap `s` that the derivation `t` stands for: its text expands to the typeset text of the
      derivation, which runs from the first mode of the scrap to the second, and shows the scraps of the input below
      it once and in order, but for those that an angle sign rightly replaces. */
  ghost predicate Lawful(t: Tree, s: Scrap, st: Store, base: nat)
    requires st.Ok()
  {
    && s.trans < st.Texts() && ExpandText(st, base, s.trans) == Names(Out(t))
    && RunsBetween(Out(t), Regs(s.left, s.right))
    && Covered(Parts(t)) == Leaves(t) && Visible(Out(t)) == Shown(Parts(t))
    && forall p :: p in Parts(t) ==> ReplacedRightly(p)
  }

  /** In every state that the parser reaches, the scraps, read and unread, stand for the whole input; every one of
      them obeys the laws; and without macro-argument brackets, a scrap leaves two indents open exactly if its
      category is fn_decl. */
  lemma ReachableLaws(input: seq<Scrap>, st: Store, forceLines: bool, k: nat) returns (ts: seq<Tree>)
    requires Good(State(input, 0, st))
    ensures var ps := After(State(input, 0, st), forceLines, k);
      && |ts| == |ps.scraps| && LeavesOf(ts) == input
      && (forall i :: 0 <= i < |ts| ==> Lawful(ts[i], ps.scraps[i], ps.store, st.Texts()))
      && ((forall s :: s in input ==> !s.cat.FnDecl? && !s.cat.EndArg?) ==>
            forall i :: 0 <= i < |ts| ==> NetIndent(Out(ts[i])) == Open(ps.scraps[i].cat))
  {
    hide Good, After, Leaves, LeavesOf, Valid, NetIndent, Out, Lawful, Renders;
    GoodStore(State(input, 0, st));
    SeedsDerive(input, st);
    ts := AfterDerives(Seeds(input), State(input, 0, st), forceLines, st.Texts(), k);
    var ps := After(State(input, 0, st), forceLines, k);
    GoodStore(ps);
    forall i | 0 <= i < |ts|
      ensures Lawful(ts[i], ps.scraps[i], ps.store, st.Texts())
      ensures (forall s :: s in input ==> !s.cat.FnDecl? && !s.cat.EndArg?) ==>
              NetIndent(Out(ts[i])) == Open(ps.scraps[i].cat)
    {
      assert Derives(ts[i], ps.scraps[i], ps.store, st.Texts());
      ScrapLawful(ts[i], ps.scraps[i], ps.store, st.Texts());
      if forall s :: s in input ==> !s.cat.FnDecl? && !s.cat.EndArg? {
        forall s | s in Leaves(ts[i])
          ensures s in input
        {
          LeavesOfHas(ts, i, s);
        }
        TreeIndents(ts[i]);
        NothingLost(ts[i]);
      }
    }
  }

  lemma GoodStore(ps: State)
    requires Good(ps)
    ensures ps.store.Ok() && ps.store.Texts() >= 0
  {
  }

  lemma ScrapLawful(t: Tree, s: Scrap, st: Store, base: nat)
    requires st.Ok() && Derives(t, s, st, base)
    ensures Lawful(t, s, st, base)
  {
    hide Valid, Out, Covered, Parts, Shown, Visible, Leaves, RunsBetween, Names, ExpandText, Store.Ok, ReplacedRightly;
    TreeRuns(t);
    TreeConserves(t);
    TreeReplaces(t);
  }

  // ---------- older texts ----------

  /** The texts from number `n` on do not refer to older ones. */
  predicate ClosedFrom(st: Store, n: nat) {
    && n < |st.starts|
    && forall j :: st.starts[n] <= j < |st.toks| && (st.toks[j].Text? || st.toks[j].Inner?) ==> st.toks[j].text >= n
  }

  /** All scraps are made of texts from number `n` on. */
  predicate AllFrom(scraps: seq<Scrap>, n: nat) {
    forall i :: 0 <= i < |scraps| ==> scraps[i].trans >= n
  }

  /** What is before text `n` is the same. */
  predicate SameBefore(st: Store, st': Store, n: nat) {
    && n < |st.starts| && n < |st'.starts| && st'.starts[n] == st.starts[n] && st.starts[n] <= |st.toks|
    && st.starts[n] <= |st'.toks| && st'.toks[..st.starts[n]] == st.toks[..st.starts[n]]
  }

  lemma {:induction false} FoundFrom(st: Store, t: nat, j: nat, n: nat)
    requires st.Ok() && n <= t < st.Texts() && st.starts[t] <= j <= st.starts[t + 1] && ClosedFrom(st, n)
    ensures var loc := FindFrom(st, t, j); loc.Some? ==> st.starts[n] <= loc.value
    decreases t, st.starts[t + 1] - j
  {
    assert st.starts[n] <= st.starts[t];
    if j < st.starts[t + 1] && !IsIdent(st.toks[j]) && st.toks[j] != Chr(Inserted) {
      if st.toks[j].Text? || st.toks[j].Inner? {
        var u := st.toks[j].text;
        FoundFrom(st, u, st.starts[u], n);
      }
      FoundFrom(st, t, j + 1, n);
    }
  }

  lemma {:induction false} MarkedFrom(scraps: seq<Scrap>, st: Store, from: nat, v: Tok, n: nat)
    requires st.Ok() && AllAnchored(scraps, st) && IsIdent(v) && AllFrom(scraps, n) && ClosedFrom(st, n)
    ensures SameBefore(st, MarkStore(scraps, st, from, v), n) && ClosedFrom(MarkStore(scraps, st, from, v), n)
    decreases |scraps| - from
  {
    if from < |scraps| {
      if Marks(scraps[from], st, v) {
        assert st.starts[n] <= st.starts[scraps[from].trans];
        MarkedFrom(scraps[from := MarkScrap(scraps[from])], MarkTok(scraps[from], st, v), from + 1, v, n);
      } else {
        MarkedFrom(scraps, st, from + 1, v, n);
      }
    }
  }

  lemma ReservedFrom(scraps: seq<Scrap>, st: Store, from: nat, n: nat)
    requires st.Ok() && AllAnchored(scraps, st) && from < |scraps| && AllFrom(scraps, n) && ClosedFrom(st, n)
    ensures SameBefore(st, ReserveStore(scraps, st, from), n) && ClosedFrom(ReserveStore(scraps, st, from), n)
    ensures AllFrom(ReserveScraps(scraps, st, from), n)
  {
    hide MarkStore, MarkScraps;
    var t := scraps[from].trans;
    FoundFrom(st, t, st.starts[t], n);
    ReserveIsReserving(scraps, st, from);
    var after := ReserveScraps(scraps, st, from);
    assert forall i :: 0 <= i < |scraps| ==> ScrapSameButReserved(scraps[i], after[i]);
    var loc := FirstIdent(st, t);
    if loc.Some? {
      MarkedFrom(scraps, st, from, st.toks[loc.value], n);
    }
  }

  lemma AppendFrom(st: Store, ts: seq<Tok>, n: nat)
    requires st.Ok() && ClosedFrom(st, n) && forall j :: 0 <= j < |ts| && (ts[j].Text? || ts[j].Inner?) ==>
             ts[j].text >= n
    ensures SameBefore(st, st.Append(ts).Freeze(), n) && ClosedFrom(st.Append(ts).Freeze(), n)
  {
  }

  lemma {:induction false} CookedFrom(r: Recipe, window: seq<Scrap>, cur: Mathness, n: nat)
    requires InRange(r, |window|) && AllFrom(window, n)
    ensures forall j :: 0 <= j < |CookToks(r, window, cur)| ==>
                          var t := CookToks(r, window, cur)[j];
                          (t.Chr? && t != TokenTrees.END) || (t.Text? && t.text >= n)
  {
    match r
    case End =>
    case Kid(i, rest) =>
      CookedFrom(rest, window, if window[i].left.MaybeMath? then cur else window[i].right, n);
    case Big(s, rest) => CookedFrom(rest, window, ModeOf(s), n);
    case Put(_, rest) => CookedFrom(rest, window, cur, n);
  }

  lemma {:induction false} JoinedFrom(scraps: seq<Scrap>, i: nat, n: nat)
    requires AllFrom(scraps, n)
    ensures forall j :: 0 <= j < |JoinToks(scraps, i)| ==>
                          var t := JoinToks(scraps, i)[j];
                          (t.Chr? && t != TokenTrees.END) || (t.Text? && t.text >= n)
    decreases |scraps| - i
  {
    if i < |scraps| {
      JoinedFrom(scraps, i + 1, n);
    }
  }

  /** No token is `end_translation`. */
  predicate NoEnd(st: Store) {
    forall i :: 0 <= i < |st.toks| ==> st.toks[i] != TokenTrees.END
  }

  lemma NoEndLater(st: Store, st': Store, ts: seq<Tok>)
    requires NoEnd(st) && ToksSameButReserved(st.toks, st'.toks)
    requires forall j :: 0 <= j < |ts| ==> ts[j] != TokenTrees.END
    ensures NoEnd(st'.Append(ts).Freeze())
  {
    forall i | 0 <= i < |st'.toks|
      ensures st'.toks[i] != TokenTrees.END
    {
      assert SameButReserved(st.toks[i], st'.toks[i]);
    }
  }

  predicate Newer(ps: State, n: nat) {
    AllFrom(ps.scraps, n) && ClosedFrom(ps.store, n) && NoEnd(ps.store) && n <= ps.store.Texts()
  }

  lemma SameBeforeTrans(a: Store, b: Store, c: Store, n: nat)
    requires SameBefore(a, b, n) && SameBefore(b, c, n)
    ensures SameBefore(a, c, n)
  {
  }

  lemma SameBeforeSelf(st: Store, n: nat)
    requires st.Ok() && n < |st.starts|
    ensures SameBefore(st, st, n)
  {
  }

  lemma BaseFrom(a: Action, ps: State, n: nat)
    requires Good(ps) && ps.pos < |ps.scraps| && a.Reduce? && Applicable(a, ps) && Newer(ps, n)
    ensures BaseStore(a, ps).Ok() && SameBefore(ps.store, BaseStore(a, ps), n) && ClosedFrom(BaseStore(a, ps), n)
    ensures AllFrom(BaseScraps(a, ps), n) && ToksSameButReserved(ps.store.toks, BaseStore(a, ps).toks)
  {
    hide ReserveStore, ReserveScraps;
    BaseGood(a, ps);
    SameBeforeSelf(ps.store, n);
    if a.reserve.Some? {
      var from := ps.pos + a.reserve.value;
      GoodIsAnchored(ps);
      ReservedFrom(ps.scraps, ps.store, from, n);
      ReserveIsReserving(ps.scraps, ps.store, from);
    }
  }

  lemma GoodIsAnchored(ps: State)
    requires Good(ps)
    ensures AllAnchored(ps.scraps, ps.store)
  {
    forall i | 0 <= i < |ps.scraps|
      ensures Anchored(ps.scraps[i], ps.store)
    {
      assert GoodScrap(ps.scraps[i], ps.store);
    }
  }

  lemma ReducedFrom(a: Action, ps: State, n: nat)
    requires Good(ps) && ps.pos < |ps.scraps| && a.Reduce? && Applicable(a, ps) && Newer(ps, n)
    ensures SameBefore(ps.store, ReducedStore(a, ps), n) && ClosedFrom(ReducedStore(a, ps), n)
            && NoEnd(ReducedStore(a, ps))
    ensures AllFrom(BaseScraps(a, ps), n) && ReducedScrap(a, ps).trans >= n
  {
    hide BaseStore, BaseScraps, CookToks, CookRegs;
    var window := ps.scraps[ps.pos..];
    var st, toks := BaseStore(a, ps), CookToks(a.recipe, window, a.start);
    BaseFrom(a, ps, n);
    CookedFrom(a.recipe, window, a.start, n);
    AppendFrom(st, toks, n);
    NoEndLater(ps.store, st, toks);
    SameBeforeTrans(ps.store, st, ReducedStore(a, ps), n);
  }

  lemma SplicedFrom(scraps: seq<Scrap>, at: nat, k: nat, s: Scrap, n: nat)
    requires at + k <= |scraps| && AllFrom(scraps, n) && s.trans >= n
    ensures AllFrom(Splice(scraps, at, k, s), n)
  {
  }

  lemma StepFrom(ps: State, forceLines: bool, n: nat)
    requires Good(ps) && ps.pos < |ps.scraps| && Newer(ps, n)
    ensures Newer(Step(ps, forceLines), n) && SameBefore(ps.store, Step(ps, forceLines).store, n)
  {
    hide BaseStore, BaseScraps, ReducedScrap, ReducedStore, Production, NoEnd, ClosedFrom, Splice;
    ActionApplies(ps, forceLines);
    GoodStore(ps);
    SameBeforeSelf(ps.store, n);
    var a := ActionAt(ps, forceLines);
    if a.Reduce? {
      ReducedFrom(a, ps, n);
      ReducedGood(a, ps);
      BaseGood(a, ps);
      SplicedFrom(BaseScraps(a, ps), ps.pos + a.at, a.k, ReducedScrap(a, ps), n);
    }
  }

  lemma {:induction false} ParseFrom(ps: State, forceLines: bool, n: nat)
    requires Good(ps) && Newer(ps, n)
    ensures Newer(Parse(ps, forceLines), n) && SameBefore(ps.store, Parse(ps, forceLines).store, n)
    decreases |ps.scraps|, RankSum(ps.scraps), |ps.scraps| - ps.pos
  {
    hide Good, Newer, Step, SameBefore;
    if ps.pos < |ps.scraps| {
      StepGood(ps, forceLines);
      StepShrinks(ps, forceLines);
      StepFrom(ps, forceLines, n);
      ParseFrom(Step(ps, forceLines), forceLines, n);
      SameBeforeTrans(ps.store, Step(ps, forceLines).store, Parse(ps, forceLines).store, n);
    } else {
      NewerSame(ps, n);
    }
  }

  lemma NewerSame(ps: State, n: nat)
    requires Good(ps) && Newer(ps, n)
    ensures SameBefore(ps.store, ps.store, n)
  {
    SameBeforeSelf(ps.store, n);
  }

  /** When C text is translated in the middle of something else, with scraps whose texts are all newer than those of
      `outer`, the texts of `outer` stay as they are, and `end_translation` does not come into the new ones: what
      `output_C` needs to read the translation and to go on afterwards. */
  lemma TranslateLeavesOuter(outer: Store, input: seq<Scrap>, st: Store, forceLines: bool)
    requires outer.Ok() && outer.Pending() == [] && Good(State(input, 0, st)) && TokenTrees.Grown(outer, st)
    requires AllFrom(input, outer.Texts()) && ClosedFrom(st, outer.Texts()) && NoEnd(st)
    ensures var r := Translated(input, st, forceLines);
      && r.Ok() && r.Pending() == [] && TokenTrees.Grown(outer, r)
      && var t := r.Texts() - 1;
         && t >= 0 && TokenTrees.RefsBelow(r.TextToks(t), t)
         && forall x :: x in TokenTrees.Flatten(r, r.TextToks(t), true, t) ==> x.tok != TokenTrees.END
  {
    hide Good, Parse, Newer, JoinToks, NoEnd, ClosedFrom, AllFrom, TokenTrees.Flatten, TokenTrees.RefsBelow,
         Store.WellFounded, SameBefore;
    GoodStore(State(input, 0, st));
    var n, r := outer.Texts(), Translated(input, st, forceLines);
    var ps := Parse(State(input, 0, st), forceLines);
    var forest := TranslateDerives(input, st, forceLines);
    TranslateKeepsTokens(input, st, forceLines);
    NewerInput(input, st, n);
    ParseFrom(State(input, 0, st), forceLines, n);
    JoinKeeps(ps, st, n);
    BeforeIsOuter(outer, st, r);
    TextNoEnd(r, r.Texts() - 1, true);
  }

  lemma NewerInput(input: seq<Scrap>, st: Store, n: nat)
    requires Good(State(input, 0, st)) && AllFrom(input, n) && ClosedFrom(st, n) && NoEnd(st)
    ensures Newer(State(input, 0, st), n)
  {
  }

  lemma JoinKeeps(ps: State, st: Store, n: nat)
    requires Good(ps) && Newer(ps, n) && SameBefore(st, ps.store, n)
    ensures var r := ps.store.Append(JoinToks(ps.scraps, 0)).Freeze(); SameBefore(st, r, n) && NoEnd(r)
  {
    hide JoinToks;
    var toks := JoinToks(ps.scraps, 0);
    JoinedFrom(ps.scraps, 0, n);
    AppendFrom(ps.store, toks, n);
    NoEndLater(ps.store, ps.store, toks);
    SameBeforeTrans(st, ps.store, ps.store.Append(toks).Freeze(), n);
  }

  lemma BeforeIsOuter(outer: Store, st: Store, r: Store)
    requires outer.Ok() && st.Ok() && r.Ok() && outer.Pending() == [] && TokenTrees.Grown(outer, st)
    requires SameBefore(st, r, outer.Texts()) && st.starts <= r.starts
    ensures TokenTrees.Grown(outer, r)
  {
    var n := outer.Texts();
    assert outer.starts[n] == |outer.toks| && st.starts[n] == outer.starts[n];
    assert outer.toks == st.toks[..|outer.toks|];
  }

  lemma TextNoEnd(st: Store, t: nat, inner: bool)
    requires st.Ok() && t < st.Texts() && NoEnd(st)
    ensures TokenTrees.RefsBelow(st.TextToks(t), t)
    ensures forall x :: x in TokenTrees.Flatten(st, st.TextToks(t), inner, t) ==> x.tok != TokenTrees.END
    decreases t, 1, 0
  {
    TokenTrees.TextBelow(st, t);
    FlattenNoEnd(st, st.TextToks(t), inner, t);
  }

  lemma {:induction false} FlattenNoEnd(st: Store, ts: seq<Tok>, inner: bool, bound: nat)
    requires st.Ok() && bound <= st.Texts() && NoEnd(st) && TokenTrees.RefsBelow(ts, bound)
    requires forall i :: 0 <= i < |ts| ==> ts[i] != TokenTrees.END
    ensures forall x :: x in TokenTrees.Flatten(st, ts, inner, bound) ==> x.tok != TokenTrees.END
    decreases bound, 0, |ts|
  {
    if ts != [] {
      assert TokenTrees.RefsBelow(ts[1..], bound);
      FlattenNoEnd(st, ts[1..], inner, bound);
      if TokenTrees.IsText(ts[0]) {
        TextNoEnd(st, ts[0].text, inner || ts[0].Inner?);
      }
    }
  }
}
