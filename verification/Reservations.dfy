/** What `make_reserved` finds and changes: the first identifier that is in sight, and the scraps that begin with it. */
module Reservations {
  import opened Scraps
  import opened Parsing
  import TokenTrees

  // ---------- what is in sight ----------

  /** The places of the tokens that text `t` is read as from place `j` on, with texts put in their places; of every
      text, only what is before an `inserted` mark in it. */
  function Sight(st: Store, t: nat, j: nat): seq<nat>
    requires st.Ok() && t < st.Texts() && st.starts[t] <= j <= st.starts[t + 1]
    decreases t, st.starts[t + 1] - j
  {
    if j == st.starts[t + 1] || st.toks[j] == Chr(Inserted) then []
    else (if TokenTrees.IsText(st.toks[j]) then Sight(st, st.toks[j].text, st.starts[st.toks[j].text]) else [j])
         + Sight(st, t, j + 1)
  }

  predicate AllInMemory(places: seq<nat>, st: Store) {
    forall i :: 0 <= i < |places| ==> places[i] < |st.toks|
  }

  lemma {:induction false} SightInMemory(st: Store, t: nat, j: nat)
    requires st.Ok() && t < st.Texts() && st.starts[t] <= j <= st.starts[t + 1]
    ensures AllInMemory(Sight(st, t, j), st)
    decreases t, st.starts[t + 1] - j
  {
    if j < st.starts[t + 1] && st.toks[j] != Chr(Inserted) {
      SightInMemory(st, t, j + 1);
      if TokenTrees.IsText(st.toks[j]) {
        SightInMemory(st, st.toks[j].text, st.starts[st.toks[j].text]);
      }
    }
  }

  /** `loc` is the first of some places where there is an identifier, if there is any. */
  predicate IsFirstIdent(loc: Option<nat>, places: seq<nat>, st: Store)
    requires AllInMemory(places, st)
  {
    match loc
    case None => forall i :: 0 <= i < |places| ==> !IsIdent(st.toks[places[i]])
    case Some(p) =>
      exists k :: 0 <= k < |places| && places[k] == p && IsIdent(st.toks[p])
                  && forall i :: 0 <= i < k ==> !IsIdent(st.toks[places[i]])
  }

  /** The search finds the first identifier in sight, and nothing only if there is none. */
  lemma FirstIdentIs(st: Store, t: nat)
    requires st.Ok() && t < st.Texts()
    ensures AllInMemory(Sight(st, t, st.starts[t]), st)
    ensures IsFirstIdent(FirstIdent(st, t), Sight(st, t, st.starts[t]), st)
  {
    SightInMemory(st, t, st.starts[t]);
    FindFromIs(st, t, st.starts[t]);
  }

  lemma {:induction false} FindFromIs(st: Store, t: nat, j: nat)
    requires st.Ok() && t < st.Texts() && st.starts[t] <= j <= st.starts[t + 1]
    ensures AllInMemory(Sight(st, t, j), st) && IsFirstIdent(FindFrom(st, t, j), Sight(st, t, j), st)
    decreases t, st.starts[t + 1] - j
  {
    hide IsFirstIdent, Store.Shaped, Store.WellFounded;
    Places(st, t);
    SightInMemory(st, t, j);
    if j == st.starts[t + 1] || st.toks[j] == Chr(Inserted) {
      NoIdent(st);
    } else {
      FindFromIs(st, t, j + 1);
      var rest, more := FindFrom(st, t, j + 1), Sight(st, t, j + 1);
      if TokenTrees.IsText(st.toks[j]) {
        var u := st.toks[j].text;
        Reference(st, t, j);
        FindFromIs(st, u, st.starts[u]);
        FirstOfTwo(FindFrom(st, u, st.starts[u]), Sight(st, u, st.starts[u]), rest, more, st);
      } else {
        OneIdent(j, st);
        FirstOfTwo(if IsIdent(st.toks[j]) then Some(j) else None, [j], rest, more, st);
      }
    }
  }

  lemma Places(st: Store, t: nat)
    requires st.Ok() && t < st.Texts()
    ensures t + 1 < |st.starts| && st.starts[t] <= st.starts[t + 1] <= |st.toks|
  {
  }

  lemma Reference(st: Store, t: nat, j: nat)
    requires st.Ok() && t < st.Texts() && st.starts[t] <= j < st.starts[t + 1] <= |st.toks|
             && TokenTrees.IsText(st.toks[j])
    ensures var u := st.toks[j].text; u < t && u + 1 < |st.starts| && st.starts[u] <= st.starts[u + 1] <= |st.toks|
  {
  }

  lemma NoIdent(st: Store)
    ensures IsFirstIdent(None, [], st)
  {
  }

  lemma OneIdent(j: nat, st: Store)
    requires j < |st.toks|
    ensures IsFirstIdent(if IsIdent(st.toks[j]) then Some(j) else None, [j], st)
  {
    assert [j][0] == j;
  }

  lemma FirstOfTwo(a: Option<nat>, ps: seq<nat>, b: Option<nat>, qs: seq<nat>, st: Store)
    requires AllInMemory(ps, st) && AllInMemory(qs, st) && IsFirstIdent(a, ps, st) && IsFirstIdent(b, qs, st)
    ensures AllInMemory(ps + qs, st) && IsFirstIdent(if a.Some? then a else b, ps + qs, st)
  {
    var all := ps + qs;
    assert forall i :: 0 <= i < |ps| ==> all[i] == ps[i];
    assert forall i :: 0 <= i < |qs| ==> all[|ps| + i] == qs[i];
    if a.Some? {
      var k :| 0 <= k < |ps| && ps[k] == a.value && forall i :: 0 <= i < k ==> !IsIdent(st.toks[ps[i]]);
      assert all[k] == a.value;
    } else {
      assert forall i :: |ps| <= i < |all| ==> all[i] == qs[i - |ps|];
      if b.Some? {
        var k :| 0 <= k < |qs| && qs[k] == b.value && forall i :: 0 <= i < k ==> !IsIdent(st.toks[qs[i]]);
        assert all[|ps| + k] == b.value;
      }
    }
  }

  /** Where no text has an `inserted` mark, all that is read is in sight. */
  predicate NoInserted(st: Store) {
    forall j :: 0 <= j < |st.toks| ==> st.toks[j] != Chr(Inserted)
  }

  function TokensAt(places: seq<nat>, st: Store): (ts: seq<Tok>)
    requires AllInMemory(places, st)
    ensures |ts| == |places| && forall i :: 0 <= i < |ts| ==> ts[i] == st.toks[places[i]]
  {
    seq(|places|, i requires 0 <= i < |places| => st.toks[places[i]])
  }

  function TokensOf(xs: seq<TokenTrees.Lexeme>): (ts: seq<Tok>)
    ensures |ts| == |xs| && forall i :: 0 <= i < |ts| ==> ts[i] == xs[i].tok
  {
    seq(|xs|, i requires 0 <= i < |xs| => xs[i].tok)
  }

  lemma {:induction false} SightIsFlatten(st: Store, t: nat, j: nat, inner: bool)
    requires st.Ok() && NoInserted(st) && t < st.Texts() && st.starts[t] <= j <= st.starts[t + 1]
    ensures AllInMemory(Sight(st, t, j), st) && j <= st.starts[t + 1] <= |st.toks|
    ensures TokenTrees.RefsBelow(st.toks[j..st.starts[t + 1]], t)
    ensures ReadInSight(st, t, j, inner)
    decreases t, st.starts[t + 1] - j
  {
    hide Store.Shaped, Store.WellFounded, TokenTrees.RefsBelow, ReadInSight;
    Places(st, t);
    SightInMemory(st, t, j);
    RestOfText(st, t, j);
    if j == st.starts[t + 1] {
      SightOfNothing(st, t, inner);
    } else {
      SightIsFlatten(st, t, j + 1, inner);
      if TokenTrees.IsText(st.toks[j]) {
        Reference(st, t, j);
        var u := st.toks[j].text;
        SightIsFlatten(st, u, st.starts[u], inner || st.toks[j].Inner?);
        SightOfText(st, t, j, inner);
      } else {
        SightOfToken(st, t, j, inner);
      }
    }
  }

  /** From place `j` on, what is in sight in text `t` is what is read. */
  predicate ReadInSight(st: Store, t: nat, j: nat, inner: bool)
    requires st.Ok() && t < st.Texts() && st.starts[t] <= j <= st.starts[t + 1] <= |st.toks|
    requires AllInMemory(Sight(st, t, j), st) && TokenTrees.RefsBelow(st.toks[j..st.starts[t + 1]], t)
  {
    TokensAt(Sight(st, t, j), st) == TokensOf(TokenTrees.Flatten(st, st.toks[j..st.starts[t + 1]], inner, t))
  }

  lemma SightOfNothing(st: Store, t: nat, inner: bool)
    requires st.Ok() && t < st.Texts() && st.starts[t] <= st.starts[t + 1] <= |st.toks|
    ensures AllInMemory(Sight(st, t, st.starts[t + 1]), st)
    ensures TokenTrees.RefsBelow(st.toks[st.starts[t + 1]..st.starts[t + 1]], t)
    ensures ReadInSight(st, t, st.starts[t + 1], inner)
  {
    hide Store.Shaped, Store.WellFounded, TokensAt, TokensOf;
    var ts := st.toks[st.starts[t + 1]..st.starts[t + 1]];
    assert ts == [];
    FlattenCons(st, ts, inner, t);
    NoTokens(st);
  }

  lemma SightOfToken(st: Store, t: nat, j: nat, inner: bool)
    requires st.Ok() && NoInserted(st) && t < st.Texts() && st.starts[t] <= j < st.starts[t + 1] <= |st.toks|
    requires AllInMemory(Sight(st, t, j), st) && TokenTrees.RefsBelow(st.toks[j..st.starts[t + 1]], t)
    requires AllInMemory(Sight(st, t, j + 1), st) && TokenTrees.RefsBelow(st.toks[j + 1..st.starts[t + 1]], t)
    requires ReadInSight(st, t, j + 1, inner) && !TokenTrees.IsText(st.toks[j])
    ensures ReadInSight(st, t, j, inner)
  {
    hide Store.Shaped, Store.WellFounded, TokenTrees.Flatten, TokenTrees.RefsBelow, TokensAt, TokensOf;
    var ts := st.toks[j..st.starts[t + 1]];
    assert ts[0] == st.toks[j] && ts[1..] == st.toks[j + 1..st.starts[t + 1]];
    FlattenCons(st, ts, inner, t);
    TokensConcat([j], Sight(st, t, j + 1), [TokenTrees.Lexeme(ts[0], inner)], TokenTrees.Flatten(st, ts[1..], inner, t),
                 st);
  }

  lemma SightOfText(st: Store, t: nat, j: nat, inner: bool)
    requires st.Ok() && NoInserted(st) && t < st.Texts() && st.starts[t] <= j < st.starts[t + 1] <= |st.toks|
    requires AllInMemory(Sight(st, t, j), st) && TokenTrees.RefsBelow(st.toks[j..st.starts[t + 1]], t)
    requires AllInMemory(Sight(st, t, j + 1), st) && TokenTrees.RefsBelow(st.toks[j + 1..st.starts[t + 1]], t)
    requires ReadInSight(st, t, j + 1, inner) && TokenTrees.IsText(st.toks[j])
    requires var u := st.toks[j].text; u < t && st.starts[u] <= st.starts[u + 1] <= |st.toks|
    requires var u := st.toks[j].text;
      AllInMemory(Sight(st, u, st.starts[u]), st) && TokenTrees.RefsBelow(st.toks[st.starts[u]..st.starts[u + 1]], u)
    requires ReadInSight(st, st.toks[j].text, st.starts[st.toks[j].text], inner || st.toks[j].Inner?)
    ensures ReadInSight(st, t, j, inner)
  {
    hide Store.Shaped, Store.WellFounded, TokenTrees.Flatten, TokenTrees.RefsBelow, TokensAt, TokensOf;
    var ts, u := st.toks[j..st.starts[t + 1]], st.toks[j].text;
    assert ts[0] == st.toks[j] && ts[1..] == st.toks[j + 1..st.starts[t + 1]];
    FlattenCons(st, ts, inner, t);
    TokensConcat(Sight(st, u, st.starts[u]), Sight(st, t, j + 1),
                 TokenTrees.Flatten(st, st.TextToks(u), inner || ts[0].Inner?, u),
                 TokenTrees.Flatten(st, ts[1..], inner, t), st);
  }

  lemma RestOfText(st: Store, t: nat, j: nat)
    requires st.Ok() && t < st.Texts() && st.starts[t] <= j <= st.starts[t + 1]
    ensures st.starts[t + 1] <= |st.toks| && TokenTrees.RefsBelow(st.toks[j..st.starts[t + 1]], t)
  {
    TokenTrees.TextBelow(st, t);
    var ts := st.toks[j..st.starts[t + 1]];
    assert forall i :: 0 <= i < |ts| ==> ts[i] == st.TextToks(t)[j - st.starts[t] + i];
  }

  lemma FlattenCons(st: Store, ts: seq<Tok>, inner: bool, bound: nat)
    requires st.Ok() && bound <= st.Texts() && TokenTrees.RefsBelow(ts, bound)
    ensures ts == [] ==> TokenTrees.Flatten(st, ts, inner, bound) == []
    ensures ts != [] ==>
              && TokenTrees.RefsBelow(ts[1..], bound)
              && (TokenTrees.IsText(ts[0]) ==>
                    && ts[0].text < st.Texts() && TokenTrees.RefsBelow(st.TextToks(ts[0].text), ts[0].text)
                    && TokenTrees.Flatten(st, ts, inner, bound)
                       == TokenTrees.Flatten(st, st.TextToks(ts[0].text), inner || ts[0].Inner?, ts[0].text)
                          + TokenTrees.Flatten(st, ts[1..], inner, bound))
              && (!TokenTrees.IsText(ts[0]) ==>
                    TokenTrees.Flatten(st, ts, inner, bound)
                    == [TokenTrees.Lexeme(ts[0], inner)] + TokenTrees.Flatten(st, ts[1..], inner, bound))
  {
    if ts != [] && TokenTrees.IsText(ts[0]) {
      TokenTrees.TextBelow(st, ts[0].text);
    }
  }

  lemma NoTokens(st: Store)
    ensures TokensAt([], st) == [] && TokensOf([]) == []
  {
  }

  lemma TokensConcat(a: seq<nat>, b: seq<nat>, xs: seq<TokenTrees.Lexeme>, ys: seq<TokenTrees.Lexeme>, st: Store)
    requires AllInMemory(b, st) && TokensAt(b, st) == TokensOf(ys) && AllInMemory(a, st)
    requires TokensAt(a, st) == TokensOf(xs) || (exists j :: a == [j] && |xs| == 1 && xs[0].tok == st.toks[j])
    ensures AllInMemory(a + b, st) && TokensAt(a + b, st) == TokensOf(xs + ys)
  {
    assert TokensAt(a, st) == TokensOf(xs);
    assert TokensAt(a + b, st) == TokensAt(a, st) + TokensAt(b, st);
    assert TokensOf(xs + ys) == TokensOf(xs) + TokensOf(ys);
  }

  // ---------- what is changed ----------

  /** Where the text of a scrap begins. */
  function Begin(s: Scrap, st: Store): nat
    requires Anchored(s, st)
  {
    st.starts[s.trans]
  }

  /** The exp scraps from number `from` on that begin with the token `v`. Of several that begin at the same place,
      only the first, if `v` is not yet a reserved word: by then the token has become one. */
  predicate Reserves(scraps: seq<Scrap>, st: Store, from: nat, v: Tok, i: nat)
    requires AllAnchored(scraps, st) && i < |scraps|
  {
    && from <= i && scraps[i].cat.Exp? && HeadTok(scraps[i], st) == v
    && (v.Res? || forall j :: from <= j < i && scraps[j].cat.Exp? ==> Begin(scraps[j], st) != Begin(scraps[i], st))
  }

  /** The store in which the token at the beginning of each of these scraps is a reserved word. */
  predicate MarkedStore(scraps: seq<Scrap>, st: Store, from: nat, v: Tok, st': Store)
    requires AllAnchored(scraps, st) && IsIdent(v)
  {
    && |st'.toks| == |st.toks| && st'.starts == st.starts && st'.ilk == st.ilk
    && forall p :: 0 <= p < |st.toks| ==>
                     st'.toks[p] == if BeginsReserved(scraps, st, from, v, p) then Res(v.name) else st.toks[p]
  }

  predicate BeginsReserved(scraps: seq<Scrap>, st: Store, from: nat, v: Tok, p: nat)
    requires AllAnchored(scraps, st)
  {
    exists i :: 0 <= i < |scraps| && Reserves(scraps, st, from, v, i) && Begin(scraps[i], st) == p
  }

  predicate MarkedScraps(scraps: seq<Scrap>, st: Store, from: nat, v: Tok, after: seq<Scrap>)
    requires AllAnchored(scraps, st)
  {
    && |after| == |scraps|
    && forall i :: 0 <= i < |scraps| ==>
                     after[i] == if Reserves(scraps, st, from, v, i) then MarkScrap(scraps[i]) else scraps[i]
  }

  /** The scan changes exactly these scraps, and the tokens that they begin with. */
  lemma {:induction false} MarksExactly(scraps: seq<Scrap>, st: Store, from: nat, v: Tok)
    requires AllAnchored(scraps, st) && IsIdent(v)
    ensures MarkedScraps(scraps, st, from, v, MarkScraps(scraps, st, from, v))
    ensures MarkedStore(scraps, st, from, v, MarkStore(scraps, st, from, v))
    decreases |scraps| - from
  {
    hide MarkedScraps, MarkedStore, Reserves;
    if from >= |scraps| {
      NoneMarked(scraps, st, from, v);
    } else if Marks(scraps[from], st, v) {
      var scraps', st' := scraps[from := MarkScrap(scraps[from])], MarkTok(scraps[from], st, v);
      MarksExactly(scraps', st', from + 1, v);
      OneMarked(scraps, st, from, v, MarkScraps(scraps', st', from + 1, v), MarkStore(scraps', st', from + 1, v));
    } else {
      MarksExactly(scraps, st, from + 1, v);
      NotMarked(scraps, st, from, v, MarkScraps(scraps, st, from + 1, v), MarkStore(scraps, st, from + 1, v));
    }
  }

  lemma NoneMarked(scraps: seq<Scrap>, st: Store, from: nat, v: Tok)
    requires AllAnchored(scraps, st) && IsIdent(v) && from >= |scraps|
    ensures MarkedScraps(scraps, st, from, v, scraps) && MarkedStore(scraps, st, from, v, st)
  {
  }

  lemma NotMarked(scraps: seq<Scrap>, st: Store, from: nat, v: Tok, after: seq<Scrap>, st': Store)
    requires AllAnchored(scraps, st) && IsIdent(v) && from < |scraps| && !Marks(scraps[from], st, v)
    requires MarkedScraps(scraps, st, from + 1, v, after) && MarkedStore(scraps, st, from + 1, v, st')
    ensures MarkedScraps(scraps, st, from, v, after) && MarkedStore(scraps, st, from, v, st')
  {
    forall i | 0 <= i < |scraps|
      ensures Reserves(scraps, st, from, v, i) <==> Reserves(scraps, st, from + 1, v, i)
    {
    }
  }

  lemma OneMarked(scraps: seq<Scrap>, st: Store, from: nat, v: Tok, after: seq<Scrap>, st': Store)
    requires AllAnchored(scraps, st) && IsIdent(v) && from < |scraps| && Marks(scraps[from], st, v)
    requires var scraps1, st1 := scraps[from := MarkScrap(scraps[from])], MarkTok(scraps[from], st, v);
      && AllAnchored(scraps1, st1) && MarkedScraps(scraps1, st1, from + 1, v, after)
        && MarkedStore(scraps1, st1, from + 1, v, st')
    ensures MarkedScraps(scraps, st, from, v, after) && MarkedStore(scraps, st, from, v, st')
  {
    hide MarkedScraps, MarkedStore;
    var scraps1, st1 := scraps[from := MarkScrap(scraps[from])], MarkTok(scraps[from], st, v);
    forall i | 0 <= i < |scraps|
      ensures Reserves(scraps, st, from, v, i) <==> i == from || Reserves(scraps1, st1, from + 1, v, i)
    {
      OneReserved(scraps, st, from, v, i);
    }
    OneMore(scraps, st, from, v, scraps1, st1, after, st');
  }

  lemma OneReserved(scraps: seq<Scrap>, st: Store, from: nat, v: Tok, i: nat)
    requires AllAnchored(scraps, st) && IsIdent(v) && from < |scraps| && Marks(scraps[from], st, v) && i < |scraps|
    ensures var scraps1, st1 := scraps[from := MarkScrap(scraps[from])], MarkTok(scraps[from], st, v);
      AllAnchored(scraps1, st1)
        && (Reserves(scraps, st, from, v, i) <==> i == from || Reserves(scraps1, st1, from + 1, v, i))
  {
    var scraps1, st1 := scraps[from := MarkScrap(scraps[from])], MarkTok(scraps[from], st, v);
    assert Begin(scraps1[i], st1) == Begin(scraps[i], st);
    if i > from && Begin(scraps[i], st) != Begin(scraps[from], st) {
      assert forall j :: from < j < i ==> scraps1[j] == scraps[j];
    }
  }

  lemma OneMore(scraps: seq<Scrap>, st: Store, from: nat, v: Tok, scraps1: seq<Scrap>, st1: Store, after: seq<Scrap>,
                st': Store)
    requires AllAnchored(scraps, st) && IsIdent(v) && from < |scraps| && HeadTok(scraps[from], st) == v
    requires scraps1 == scraps[from := MarkScrap(scraps[from])] && st1 == MarkTok(scraps[from], st, v)
    requires AllAnchored(scraps1, st1)
    requires forall i :: 0 <= i < |scraps| ==>
                           (Reserves(scraps, st, from, v, i) <==> i == from || Reserves(scraps1, st1, from + 1, v, i))
    requires MarkedScraps(scraps1, st1, from + 1, v, after) && MarkedStore(scraps1, st1, from + 1, v, st')
    ensures MarkedScraps(scraps, st, from, v, after) && MarkedStore(scraps, st, from, v, st')
  {
    assert !Reserves(scraps1, st1, from + 1, v, from);
    forall p | 0 <= p < |st.toks|
      ensures BeginsReserved(scraps, st, from, v, p) <==>
              p == Begin(scraps[from], st) || BeginsReserved(scraps1, st1, from + 1, v, p)
    {
      hide Reserves;
      if p == Begin(scraps[from], st) {
        assert Reserves(scraps, st, from, v, from);
      }
      if BeginsReserved(scraps1, st1, from + 1, v, p) {
        var i :| 0 <= i < |scraps1| && Reserves(scraps1, st1, from + 1, v, i) && Begin(scraps1[i], st1) == p;
        assert Reserves(scraps, st, from, v, i) && Begin(scraps[i], st) == p;
      }
      if BeginsReserved(scraps, st, from, v, p) {
        var i :| 0 <= i < |scraps| && Reserves(scraps, st, from, v, i) && Begin(scraps[i], st) == p;
        assert i != from ==> Reserves(scraps1, st1, from + 1, v, i) && Begin(scraps1[i], st1) == p;
      }
    }
  }

  /** What `make_reserved` does with the scrap number `from`: if an identifier is in sight, exactly the exp scraps
      from there on that begin with it become raw_int, their first tokens and the one that was found become reserved
      words, and the identifier gets the category raw_int; nothing else changes, and nothing at all if no identifier
      is in sight. */
  lemma ReservesExactly(scraps: seq<Scrap>, st: Store, from: nat)
    requires st.Ok() && AllAnchored(scraps, st) && from < |scraps|
    ensures var t := scraps[from].trans;
      var loc := FirstIdent(st, t);
      var after, st' := ReserveScraps(scraps, st, from), ReserveStore(scraps, st, from);
      && AllInMemory(Sight(st, t, st.starts[t]), st) && IsFirstIdent(loc, Sight(st, t, st.starts[t]), st)
      && (loc.None? ==> after == scraps && st' == st)
      && (loc.Some? ==>
            var v := st.toks[loc.value];
            && MarkedScraps(scraps, st, from, v, after)
            && |st'.toks| == |st.toks| && st'.starts == st.starts && st'.ilk == st.ilk[v.name := RawInt]
            && forall p :: 0 <= p < |st.toks| ==>
                 st'.toks[p] == if p == loc.value || BeginsReserved(scraps, st, from, v, p) then Res(v.name)
                   else st.toks[p])
  {
    hide MarkedScraps, BeginsReserved, MarkScraps, MarkStore, Sight, IsFirstIdent;
    var t := scraps[from].trans;
    FirstIdentIs(st, t);
    var loc := FirstIdent(st, t);
    if loc.Some? {
      MarksExactly(scraps, st, from, st.toks[loc.value]);
    }
  }

  /** Where no two exp scraps begin at the same place, these are simply all that begin with the identifier. */
  lemma ReservesAll(scraps: seq<Scrap>, st: Store, from: nat, v: Tok, i: nat)
    requires AllAnchored(scraps, st) && i < |scraps|
    requires forall j, k :: 0 <= j < k < |scraps| && scraps[j].cat.Exp? && scraps[k].cat.Exp? ==>
                              Begin(scraps[j], st) != Begin(scraps[k], st)
    ensures Reserves(scraps, st, from, v, i) <==> from <= i && scraps[i].cat.Exp? && HeadTok(scraps[i], st) == v
  {
  }
}
