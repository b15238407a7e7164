/** The scrap parser as list rewriting: what one pass through the loop of `translate` does to the list of scraps, to the
    position in it, and to the token store. */
module Parsing {
  import opened Scraps
  import opened Productions

  // ---------- building a translation ----------

  /** The registers `init_mathness` and `cur_mathness`. */
  datatype Regs = Regs(init: Mathness, cur: Mathness)

  /** What is appended when text that needs mode `to` follows text that ends in mode `from`. */
  function Toggle(from: Mathness, to: Mathness): seq<Tok> {
    if from.YesMath? && to.NoMath? then [Chr(BraceL), Chr(BraceR), Chr(Dollar)]
    else if from.NoMath? && to.YesMath? then [Chr(Dollar), Chr(BraceL), Chr(BraceR)]
    else []
  }

  /** The registers after text with boundaries `left` and `right`; both halves of `big_app` and `big_app1` do this. */
  function Meet(r: Regs, left: Mathness, right: Mathness): Regs {
    if left.MaybeMath? then r else Regs(if r.cur.MaybeMath? then left else r.init, right)
  }

  predicate InRange(r: Recipe, n: nat) {
    match r
    case End => true
    case Kid(i, rest) => i < n && InRange(rest, n)
    case Big(_, rest) => InRange(rest, n)
    case Put(_, rest) => InRange(rest, n)
  }

  /** The tokens a recipe appends, given the scraps from `pp` on. */
  function CookToks(r: Recipe, window: seq<Scrap>, cur: Mathness): seq<Tok>
    requires InRange(r, |window|)
  {
    match r
    case End => []
    case Kid(i, rest) =>
      var s := window[i];
      Toggle(cur, s.left) + [Text(s.trans)] + CookToks(rest, window, if s.left.MaybeMath? then cur else s.right)
    case Big(s, rest) => Toggle(cur, ModeOf(s)) + [Chr(s)] + CookToks(rest, window, ModeOf(s))
    case Put(s, rest) => [Chr(s)] + CookToks(rest, window, cur)
  }

  /** The registers at the end of a recipe. */
  function CookRegs(r: Recipe, window: seq<Scrap>, regs: Regs): Regs
    requires InRange(r, |window|)
  {
    match r
    case End => regs
    case Kid(i, rest) => CookRegs(rest, window, Meet(regs, window[i].left, window[i].right))
    case Big(s, rest) => CookRegs(rest, window, Meet(regs, ModeOf(s), ModeOf(s)))
    case Put(_, rest) => CookRegs(rest, window, regs)
  }

  // ---------- make_reserved ----------

  predicate IsIdent(t: Tok) {
    t.Id? || t.Res?
  }

  /** The place of the first identifier at or after `j` in text `t`; an `inserted` mark ends the search of a text. */
  function FindFrom(st: Store, t: nat, j: nat): (loc: Option<nat>)
    requires st.Ok() && t < st.Texts() && st.starts[t] <= j <= st.starts[t + 1]
    ensures loc.Some? ==> loc.value < st.starts[t + 1] && IsIdent(st.toks[loc.value])
    decreases t, st.starts[t + 1] - j
  {
    if j == st.starts[t + 1] then None
    else if IsIdent(st.toks[j]) then Some(j)
    else if st.toks[j] == Chr(Inserted) then None
    else if st.toks[j].Text? || st.toks[j].Inner? then
      var u := st.toks[j].text;
      var inside := FindFrom(st, u, st.starts[u]);
      if inside.Some? then inside else FindFrom(st, t, j + 1)
    else FindFrom(st, t, j + 1)
  }

  function FirstIdent(st: Store, t: nat): (loc: Option<nat>)
    requires st.Ok() && t < st.Texts()
    ensures loc.Some? ==> loc.value < st.starts[t + 1] && IsIdent(st.toks[loc.value])
  {
    FindFrom(st, t, st.starts[t])
  }

  /** A scrap whose text begins inside the token memory. */
  predicate Anchored(s: Scrap, st: Store) {
    s.trans < st.Texts() && st.starts[s.trans] < |st.toks|
  }

  predicate AllAnchored(scraps: seq<Scrap>, st: Store) {
    forall i :: 0 <= i < |scraps| ==> Anchored(scraps[i], st)
  }

  /** The token `**trans`. For an empty text this is the first token of a later text. */
  function HeadTok(s: Scrap, st: Store): Tok
    requires Anchored(s, st)
  {
    st.toks[st.starts[s.trans]]
  }

  predicate Marks(s: Scrap, st: Store, v: Tok)
    requires Anchored(s, st)
  {
    s.cat.Exp? && HeadTok(s, st) == v
  }

  function MarkScrap(s: Scrap): Scrap {
    s.(cat := RawInt)
  }

  function MarkTok(s: Scrap, st: Store, v: Tok): Store
    requires Anchored(s, st) && IsIdent(v)
  {
    st.(toks := st.toks[st.starts[s.trans] := Res(v.name)])
  }

  /** The scraps after the scan of `make_reserved` from position `from`. */
  function MarkScraps(scraps: seq<Scrap>, st: Store, from: nat, v: Tok): (r: seq<Scrap>)
    requires AllAnchored(scraps, st) && IsIdent(v)
    ensures |r| == |scraps|
    decreases |scraps| - from
  {
    if from >= |scraps| then scraps
    else if Marks(scraps[from], st, v) then
      MarkScraps(scraps[from := MarkScrap(scraps[from])], MarkTok(scraps[from], st, v), from + 1, v)
    else MarkScraps(scraps, st, from + 1, v)
  }

  /** The store after the scan of `make_reserved` from position `from`. */
  function MarkStore(scraps: seq<Scrap>, st: Store, from: nat, v: Tok): (r: Store)
    requires AllAnchored(scraps, st) && IsIdent(v)
    ensures |r.toks| == |st.toks| && r.starts == st.starts
    decreases |scraps| - from
  {
    if from >= |scraps| then st
    else if Marks(scraps[from], st, v) then
      MarkStore(scraps[from := MarkScrap(scraps[from])], MarkTok(scraps[from], st, v), from + 1, v)
    else MarkStore(scraps, st, from + 1, v)
  }

  /** `make_reserved` called with the scrap at position `from`: the scraps, and the store. */
  function ReserveScraps(scraps: seq<Scrap>, st: Store, from: nat): (r: seq<Scrap>)
    requires st.Ok() && AllAnchored(scraps, st) && from < |scraps|
    ensures |r| == |scraps|
  {
    var loc := FirstIdent(st, scraps[from].trans);
    if loc.None? then scraps else MarkScraps(scraps, st, from, st.toks[loc.value])
  }

  function ReserveStore(scraps: seq<Scrap>, st: Store, from: nat): (r: Store)
    requires st.Ok() && AllAnchored(scraps, st) && from < |scraps|
    ensures |r.toks| == |st.toks| && r.starts == st.starts
  {
    var loc := FirstIdent(st, scraps[from].trans);
    if loc.None? then st
    else
      var v := st.toks[loc.value];
      var marked := MarkStore(scraps, st, from, v);
      Store(marked.toks[loc.value := Res(v.name)], marked.starts, marked.ilk[v.name := RawInt])
  }

  /** Equal, but for identifiers that have become reserved words. */
  predicate SameButReserved(a: Tok, b: Tok) {
    a == b || (IsIdent(a) && b == Res(a.name))
  }

  predicate ToksSameButReserved(a: seq<Tok>, b: seq<Tok>) {
    |a| == |b| && forall i :: 0 <= i < |a| ==> SameButReserved(a[i], b[i])
  }

  /** Equal, but for exp scraps that have become raw_int. */
  predicate ScrapSameButReserved(a: Scrap, b: Scrap) {
    a == b || (a.cat.Exp? && b == MarkScrap(a))
  }

  predicate ScrapsSameButReserved(a: seq<Scrap>, b: seq<Scrap>) {
    |a| == |b| && forall i :: 0 <= i < |a| ==> ScrapSameButReserved(a[i], b[i])
  }

  lemma {:induction false} MarkIsReserving(scraps: seq<Scrap>, st: Store, from: nat, v: Tok)
    requires AllAnchored(scraps, st) && IsIdent(v)
    ensures ScrapsSameButReserved(scraps, MarkScraps(scraps, st, from, v))
    ensures ToksSameButReserved(st.toks, MarkStore(scraps, st, from, v).toks)
    decreases |scraps| - from
  {
    if from < |scraps| {
      if Marks(scraps[from], st, v) {
        MarkIsReserving(scraps[from := MarkScrap(scraps[from])], MarkTok(scraps[from], st, v), from + 1, v);
      } else {
        MarkIsReserving(scraps, st, from + 1, v);
      }
    }
  }

  /** `make_reserved` changes nothing but identifier flags, and categories from exp to raw_int. */
  lemma ReserveIsReserving(scraps: seq<Scrap>, st: Store, from: nat)
    requires st.Ok() && AllAnchored(scraps, st) && from < |scraps|
    ensures ScrapsSameButReserved(scraps, ReserveScraps(scraps, st, from))
    ensures ToksSameButReserved(st.toks, ReserveStore(scraps, st, from).toks)
    ensures ReserveStore(scraps, st, from).Ok()
  {
    var loc := FirstIdent(st, scraps[from].trans);
    if loc.Some? {
      MarkIsReserving(scraps, st, from, st.toks[loc.value]);
    }
  }

  // ---------- one step ----------

  /** The list of scraps (those read and those to come), the position of `pp` in it, and the token store. */
  datatype State = State(scraps: seq<Scrap>, pos: nat, store: Store)

  predicate BothOrNeither(s: Scrap) {
    s.left.MaybeMath? <==> s.right.MaybeMath?
  }

  predicate GoodScrap(s: Scrap, st: Store) {
    !s.cat.Zero? && BothOrNeither(s) && Anchored(s, st)
  }

  /** The states the parser works in: everything frozen, every scrap with a category and a text. */
  predicate Good(ps: State) {
    && ps.store.Ok() && ps.store.Pending() == []
    && (forall i :: 0 <= i < |ps.scraps| ==> GoodScrap(ps.scraps[i], ps.store))
  }

  /** The category at position `i`, where the parser finds padding past the last scrap. */
  function CatAt(scraps: seq<Scrap>, i: nat): Cat {
    if i < |scraps| then scraps[i].cat else Zero
  }

  function ViewAt(scraps: seq<Scrap>, pos: nat, forceLines: bool): View {
    View(CatAt(scraps, pos), CatAt(scraps, pos + 1), CatAt(scraps, pos + 2), CatAt(scraps, pos + 3), forceLines)
  }

  function ActionAt(ps: State, forceLines: bool): Action {
    Production(ViewAt(ps.scraps, ps.pos, forceLines))
  }

  /** `pp` moves by `d`, but not below `scrap_base`. */
  function Move(pos: nat, d: int): nat {
    if pos + d >= 0 then pos + d else 0
  }

  function Splice(scraps: seq<Scrap>, at: nat, k: nat, s: Scrap): (r: seq<Scrap>)
    requires at + k <= |scraps|
    ensures |r| == |scraps| - k + 1
  {
    scraps[..at] + [s] + scraps[at + k..]
  }

  /** The legality of an action, and that its scraps exist. */
  predicate Applicable(a: Action, ps: State) {
    match a
    case NoMatch => true
    case Relabel(at, cat, _, _) => ps.pos + at < |ps.scraps| && !cat.Zero?
    case Reduce(at, k, cat, _, _, reserve, _, recipe) =>
      && 1 <= k && ps.pos + at + k <= |ps.scraps| && !cat.Zero? && !recipe.End?
      && (reserve.Some? ==> ps.pos + reserve.value < |ps.scraps|)
      && InRange(recipe, |ps.scraps| - ps.pos)
  }

  /** The store in which a production appends, and the scraps it works on: those after `make_reserved`. */
  function BaseStore(a: Action, ps: State): Store
    requires Good(ps) && ps.pos < |ps.scraps| && a.Reduce? && Applicable(a, ps)
  {
    if a.reserve.None? then ps.store else ReserveStore(ps.scraps, ps.store, ps.pos + a.reserve.value)
  }

  function BaseScraps(a: Action, ps: State): seq<Scrap>
    requires Good(ps) && ps.pos < |ps.scraps| && a.Reduce? && Applicable(a, ps)
  {
    if a.reserve.None? then ps.scraps else ReserveScraps(ps.scraps, ps.store, ps.pos + a.reserve.value)
  }

  function ReducedStore(a: Action, ps: State): Store
    requires Good(ps) && ps.pos < |ps.scraps| && a.Reduce? && Applicable(a, ps)
  {
    BaseStore(a, ps).Append(CookToks(a.recipe, ps.scraps[ps.pos..], a.start)).Freeze()
  }

  function ReducedScrap(a: Action, ps: State): Scrap
    requires Good(ps) && ps.pos < |ps.scraps| && a.Reduce? && Applicable(a, ps)
  {
    var regs := CookRegs(a.recipe, ps.scraps[ps.pos..], Regs(a.start, a.start));
    Scrap(a.cat, regs.init, regs.cur, ps.store.Texts())
  }

  /** The effect of an action on the state. */
  function Perform(a: Action, ps: State): State
    requires Good(ps) && ps.pos < |ps.scraps| && Applicable(a, ps)
  {
    match a
    case NoMatch => ps.(pos := ps.pos + 1)
    case Relabel(at, cat, d, _) =>
      State(ps.scraps[ps.pos + at := ps.scraps[ps.pos + at].(cat := cat)], Move(ps.pos, d), ps.store)
    case Reduce(at, k, _, d, _, _, _, _) =>
      State(Splice(BaseScraps(a, ps), ps.pos + at, k, ReducedScrap(a, ps)), Move(ps.pos, d), ReducedStore(a, ps))
  }

  // ---------- the productions apply ----------

  lemma {:induction false} KidsInRange(r: Recipe, n: nat)
    requires forall i :: i in KidsOf(r) ==> i < n
    ensures InRange(r, n)
  {
    match r
    case End =>
    case Kid(i, rest) =>
      assert i in KidsOf(r);
      assert forall j :: j in KidsOf(rest) ==> j in KidsOf(r);
      KidsInRange(rest, n);
    case Big(_, rest) => KidsInRange(rest, n);
    case Put(_, rest) => KidsInRange(rest, n);
  }

  lemma {:induction false} UpToIs(lo: nat, n: nat)
    ensures |UpTo(lo, n)| == n && forall i :: 0 <= i < n ==> UpTo(lo, n)[i] == lo + i
    decreases n
  {
    if n > 0 {
      UpToIs(lo + 1, n - 1);
    }
  }

  lemma ViewLegal(ps: State, forceLines: bool)
    requires Good(ps) && ps.pos < |ps.scraps|
    ensures Legal(ActionAt(ps, forceLines), ViewAt(ps.scraps, ps.pos, forceLines))
  {
    var v := ViewAt(ps.scraps, ps.pos, forceLines);
    assert GoodScrap(ps.scraps[ps.pos], ps.store);
    assert v.c1.Zero? ==> v.c2.Zero? by {
      if ps.pos + 1 < |ps.scraps| { assert GoodScrap(ps.scraps[ps.pos + 1], ps.store); }
    }
    assert v.c2.Zero? ==> v.c3.Zero? by {
      if ps.pos + 2 < |ps.scraps| { assert GoodScrap(ps.scraps[ps.pos + 2], ps.store); }
    }
    ProductionLegal(v);
  }

  /** A legal action consumes only scraps that are there: padding has no part in any production. */
  lemma LegalApplies(a: Action, ps: State, forceLines: bool)
    requires ps.pos < |ps.scraps| && Legal(a, ViewAt(ps.scraps, ps.pos, forceLines))
    ensures Applicable(a, ps)
  {
    if a.Reduce? {
      UpToIs(a.at, a.k);
      KidsInRange(a.recipe, |ps.scraps| - ps.pos);
    }
  }

  /** Whatever production matches in a good state, it consumes only scraps that are there. */
  lemma ActionApplies(ps: State, forceLines: bool)
    requires Good(ps) && ps.pos < |ps.scraps|
    ensures Legal(ActionAt(ps, forceLines), ViewAt(ps.scraps, ps.pos, forceLines))
    ensures Applicable(ActionAt(ps, forceLines), ps)
  {
    ViewLegal(ps, forceLines);
    LegalApplies(ActionAt(ps, forceLines), ps, forceLines);
  }

  function Step(ps: State, forceLines: bool): State
    requires Good(ps) && ps.pos < |ps.scraps|
  {
    ActionApplies(ps, forceLines);
    Perform(ActionAt(ps, forceLines), ps)
  }

  // ---------- what a step keeps ----------

  lemma {:induction false} CookedRefs(r: Recipe, window: seq<Scrap>, cur: Mathness, bound: nat)
    requires InRange(r, |window|)
    requires forall i :: 0 <= i < |window| ==> window[i].trans < bound
    ensures forall j :: 0 <= j < |CookToks(r, window, cur)| ==>
                          var t := CookToks(r, window, cur)[j]; t.Chr? || (t.Text? && t.text < bound)
    ensures r.End? || |CookToks(r, window, cur)| > 0
  {
    match r
    case End =>
    case Kid(i, rest) =>
      CookedRefs(rest, window, if window[i].left.MaybeMath? then cur else window[i].right, bound);
    case Big(s, rest) => CookedRefs(rest, window, ModeOf(s), bound);
    case Put(_, rest) => CookedRefs(rest, window, cur, bound);
  }

  lemma {:induction false} CookedRegs(r: Recipe, window: seq<Scrap>, regs: Regs)
    requires InRange(r, |window|)
    requires forall i :: 0 <= i < |window| ==> BothOrNeither(window[i])
    requires regs.init.MaybeMath? <==> regs.cur.MaybeMath?
    ensures CookRegs(r, window, regs).init.MaybeMath? <==> CookRegs(r, window, regs).cur.MaybeMath?
  {
    match r
    case End =>
    case Kid(i, rest) => CookedRegs(rest, window, Meet(regs, window[i].left, window[i].right));
    case Big(s, rest) => CookedRegs(rest, window, Meet(regs, ModeOf(s), ModeOf(s)));
    case Put(_, rest) => CookedRegs(rest, window, regs);
  }

  /** Appending tokens that refer to earlier texts, and freezing, keeps the store in order. */
  lemma AppendFreezeOk(st: Store, ts: seq<Tok>)
    requires st.Ok() && st.Pending() == []
    requires forall j :: 0 <= j < |ts| && (ts[j].Text? || ts[j].Inner?) ==> ts[j].text < st.Texts()
    ensures st.Append(ts).Freeze().Ok() && st.Append(ts).Freeze().Pending() == []
    ensures st.Append(ts).Freeze().Texts() == st.Texts() + 1
    ensures st.Append(ts).Freeze().TextToks(st.Texts()) == ts
  {
    var r := st.Append(ts).Freeze();
    assert st.starts[st.Texts()] == |st.toks|;
    assert r.toks[|st.toks|..] == ts;
  }


  lemma WindowGood(ps: State)
    requires Good(ps) && ps.pos < |ps.scraps|
    ensures var w := ps.scraps[ps.pos..];
      forall i :: 0 <= i < |w| ==> w[i].trans < ps.store.Texts() && BothOrNeither(w[i])
  {
    var w := ps.scraps[ps.pos..];
    forall i | 0 <= i < |w|
      ensures w[i].trans < ps.store.Texts() && BothOrNeither(w[i])
    {
      assert GoodScrap(ps.scraps[ps.pos + i], ps.store);
    }
  }

  /** The scraps and the store in which the new translation is built: after `make_reserved`, if there is a call. */
  lemma ReservedGood(a: Action, ps: State)
    requires Good(ps) && ps.pos < |ps.scraps| && a.Reduce? && Applicable(a, ps) && a.reserve.Some?
    ensures var st := ReserveStore(ps.scraps, ps.store, ps.pos + a.reserve.value);
      var scraps := ReserveScraps(ps.scraps, ps.store, ps.pos + a.reserve.value);
      && st.Ok() && st.Pending() == [] && st.starts == ps.store.starts && |st.toks| == |ps.store.toks|
      && (forall i :: 0 <= i < |scraps| ==> GoodScrap(scraps[i], st))
  {
    ReserveIsReserving(ps.scraps, ps.store, ps.pos + a.reserve.value);
    var st := ReserveStore(ps.scraps, ps.store, ps.pos + a.reserve.value);
    var scraps := ReserveScraps(ps.scraps, ps.store, ps.pos + a.reserve.value);
    assert ps.store.Pending() == [];
    forall i | 0 <= i < |scraps|
      ensures GoodScrap(scraps[i], st)
    {
      assert GoodScrap(ps.scraps[i], ps.store) && ScrapSameButReserved(ps.scraps[i], scraps[i]);
    }
  }

  predicate AllGood(scraps: seq<Scrap>, st: Store) {
    forall i :: 0 <= i < |scraps| ==> GoodScrap(scraps[i], st)
  }

  lemma AppendFreezeKeepsGood(scraps: seq<Scrap>, st: Store, ts: seq<Tok>)
    requires AllGood(scraps, st)
    ensures AllGood(scraps, st.Append(ts).Freeze())
  {
    forall i | 0 <= i < |scraps|
      ensures GoodScrap(scraps[i], st.Append(ts).Freeze())
    {
      assert GoodScrap(scraps[i], st);
    }
  }

  lemma SpliceGood(scraps: seq<Scrap>, at: nat, k: nat, s: Scrap, st: Store)
    requires at + k <= |scraps| && AllGood(scraps, st) && GoodScrap(s, st)
    ensures AllGood(Splice(scraps, at, k, s), st)
  {
    var r := Splice(scraps, at, k, s);
    forall i | 0 <= i < |r|
      ensures GoodScrap(r[i], st)
    {
      assert r[i] == if i < at then scraps[i] else if i == at then s else scraps[i + k - 1];
    }
  }

  lemma BaseGood(a: Action, ps: State)
    requires Good(ps) && ps.pos < |ps.scraps| && a.Reduce? && Applicable(a, ps)
    ensures var st := BaseStore(a, ps);
      && st.Ok() && st.Pending() == [] && st.starts == ps.store.starts && |st.toks| == |ps.store.toks|
      && |BaseScraps(a, ps)| == |ps.scraps| && AllGood(BaseScraps(a, ps), st)
  {
    if a.reserve.Some? {
      ReservedGood(a, ps);
    }
  }

  /** The tokens of the new translation refer to existing texts, and there is at least one. */
  lemma NewToksGood(a: Action, ps: State)
    requires Good(ps) && ps.pos < |ps.scraps| && a.Reduce? && Applicable(a, ps)
    ensures var ts := CookToks(a.recipe, ps.scraps[ps.pos..], a.start);
      |ts| > 0 && forall j :: 0 <= j < |ts| ==> ts[j].Chr? || (ts[j].Text? && ts[j].text < ps.store.Texts())
    ensures BothOrNeither(ReducedScrap(a, ps))
  {
    var w := ps.scraps[ps.pos..];
    WindowGood(ps);
    CookedRefs(a.recipe, w, a.start, ps.store.Texts());
    CookedRegs(a.recipe, w, Regs(a.start, a.start));
  }

  lemma ReducedGood(a: Action, ps: State)
    requires Good(ps) && ps.pos < |ps.scraps| && a.Reduce? && Applicable(a, ps)
    ensures ReducedStore(a, ps).Ok() && ReducedStore(a, ps).Pending() == []
    ensures ReducedStore(a, ps).Texts() == ps.store.Texts() + 1
    ensures GoodScrap(ReducedScrap(a, ps), ReducedStore(a, ps))
  {
    NewToksGood(a, ps);
    BaseGood(a, ps);
    var st := BaseStore(a, ps);
    AppendFreezeOk(st, CookToks(a.recipe, ps.scraps[ps.pos..], a.start));
    assert ReducedStore(a, ps).starts[st.Texts()] == |st.toks|;
  }

  /** Every state the parser reaches is good. */
  lemma StepGood(ps: State, forceLines: bool)
    requires Good(ps) && ps.pos < |ps.scraps|
    ensures Good(Step(ps, forceLines))
  {
    ActionApplies(ps, forceLines);
    PerformGood(ActionAt(ps, forceLines), ps);
  }

  lemma PerformGood(a: Action, ps: State)
    requires Good(ps) && ps.pos < |ps.scraps| && Applicable(a, ps)
    ensures Good(Perform(a, ps))
  {
    if a.Reduce? {
      BaseGood(a, ps);
      AppendFreezeKeepsGood(BaseScraps(a, ps), BaseStore(a, ps), CookToks(a.recipe, ps.scraps[ps.pos..], a.start));
      ReducedGood(a, ps);
      SpliceGood(BaseScraps(a, ps), ps.pos + a.at, a.k, ReducedScrap(a, ps), ReducedStore(a, ps));
    }
  }

  // ---------- termination ----------

  function RankSum(scraps: seq<Scrap>): nat {
    if scraps == [] then 0 else Rank(scraps[0].cat) + RankSum(scraps[1..])
  }

  lemma {:induction false} RankSumUpdate(scraps: seq<Scrap>, i: nat, s: Scrap)
    requires i < |scraps|
    ensures RankSum(scraps[i := s]) == RankSum(scraps) - Rank(scraps[i].cat) + Rank(s.cat)
  {
    if i == 0 {
      assert scraps[i := s][1..] == scraps[1..];
    } else {
      assert scraps[i := s][1..] == scraps[1..][i - 1 := s];
      RankSumUpdate(scraps[1..], i - 1, s);
    }
  }

  /** A step makes the list shorter, or lowers the ranks of its scraps, or moves on. */
  predicate Smaller(a: State, b: State) {
    || |a.scraps| < |b.scraps|
    || (|a.scraps| == |b.scraps| && RankSum(a.scraps) < RankSum(b.scraps))
    || (a.scraps == b.scraps && a.pos == b.pos + 1)
  }

  /** An action on a single scrap lowers its rank. */
  predicate Lowers(a: Action, ps: State)
    requires Applicable(a, ps)
  {
    match a
    case NoMatch => true
    case Relabel(at, cat, _, _) => Rank(cat) < Rank(ps.scraps[ps.pos + at].cat)
    case Reduce(at, k, cat, _, _, reserve, _, _) =>
      k == 1 ==> Rank(cat) < Rank(ps.scraps[ps.pos + at].cat) && reserve.None?
  }

  lemma LegalLowers(a: Action, ps: State, forceLines: bool)
    requires Legal(a, ViewAt(ps.scraps, ps.pos, forceLines)) && Applicable(a, ps)
    ensures Lowers(a, ps)
  {
  }

  lemma PerformShrinks(a: Action, ps: State)
    requires Good(ps) && ps.pos < |ps.scraps| && Applicable(a, ps) && Lowers(a, ps)
    ensures Smaller(Perform(a, ps), ps)
  {
    match a
    case NoMatch =>
    case Relabel(at, cat, _, _) =>
      RankSumUpdate(ps.scraps, ps.pos + at, ps.scraps[ps.pos + at].(cat := cat));
    case Reduce(at, k, _, _, _, _, _, _) =>
      if k == 1 {
        var s := ReducedScrap(a, ps);
        assert Splice(ps.scraps, ps.pos + at, 1, s) == ps.scraps[ps.pos + at := s];
        RankSumUpdate(ps.scraps, ps.pos + at, s);
      }
  }

  lemma StepShrinks(ps: State, forceLines: bool)
    requires Good(ps) && ps.pos < |ps.scraps|
    ensures Smaller(Step(ps, forceLines), ps)
  {
    ActionApplies(ps, forceLines);
    LegalLowers(ActionAt(ps, forceLines), ps, forceLines);
    PerformShrinks(ActionAt(ps, forceLines), ps);
  }

  /** The parse: steps until the position is past the last scrap. */
  function Parse(ps: State, forceLines: bool): (r: State)
    requires Good(ps)
    ensures Good(r) && r.pos >= |r.scraps|
    decreases |ps.scraps|, RankSum(ps.scraps), |ps.scraps| - ps.pos
  {
    if ps.pos >= |ps.scraps| then ps
    else
      StepGood(ps, forceLines);
      StepShrinks(ps, forceLines);
      Parse(Step(ps, forceLines), forceLines)
  }
}
