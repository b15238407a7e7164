/** The parser and the output routine together: what is read from a translation. */
module TranslationOutput {
  import opened Scraps
  import opened Parsing
  import opened Derivations
  import opened MathModes
  import opened Indentation
  import opened Conservation
  import opened Translations
  import TokenTrees

  predicate PiecesBelow(items: seq<Item<nat>>, bound: int) {
    forall i :: 0 <= i < |items| && items[i].Piece? ==> items[i].leaf < bound
  }

  predicate OnlyBuilt(ts: seq<Tok>) {
    forall i :: 0 <= i < |ts| ==> ts[i].Chr? || ts[i].Text?
  }

  /** What is read of a text with input texts in it: its symbols, and the input texts token by token. */
  function Spelled(st: Store, items: seq<Item<nat>>, inner: bool): seq<TokenTrees.Lexeme>
    requires st.Ok() && PiecesBelow(items, st.Texts())
  {
    if items == [] then []
    else
      assert PiecesBelow(items[1..], st.Texts());
      (match items[0]
       case Glue(s) => [TokenTrees.Lexeme(Chr(s), inner)]
       case Piece(u) => TokenTrees.TextBelow(st, u); TokenTrees.Flatten(st, st.TextToks(u), inner, u))
      + Spelled(st, items[1..], inner)
  }

  lemma {:induction false} SpelledAppend(st: Store, a: seq<Item<nat>>, b: seq<Item<nat>>, inner: bool)
    requires st.Ok() && PiecesBelow(a, st.Texts()) && PiecesBelow(b, st.Texts())
    ensures PiecesBelow(a + b, st.Texts()) && Spelled(st, a + b, inner) == Spelled(st, a, inner) + Spelled(st, b, inner)
  {
    hide Store.Ok, TokenTrees.Flatten;
    if a == [] {
      assert a + b == b;
    } else {
      assert (a + b)[0] == a[0] && (a + b)[1..] == a[1..] + b;
      assert PiecesBelow(a[1..], st.Texts());
      SpelledAppend(st, a[1..], b, inner);
    }
  }

  lemma BuiltText(st: Store, base: nat, u: nat)
    requires st.Ok() && Built(st, base) && base <= u < st.Texts()
    ensures OnlyBuilt(st.TextToks(u))
  {
    var ts := st.TextToks(u);
    forall i | 0 <= i < |ts|
      ensures ts[i].Chr? || ts[i].Text?
    {
      assert ts[i] == st.toks[st.starts[u] + i];
    }
  }

  /** Reading tokens made by productions is reading what they expand to. */
  lemma {:induction false} FlattenIsExpansion(st: Store, base: nat, ts: seq<Tok>, inner: bool, bound: nat)
    requires st.Ok() && bound <= st.Texts() && Built(st, base) && TokenTrees.RefsBelow(ts, bound) && OnlyBuilt(ts)
    ensures PiecesBelow(Expand(st, base, ts, bound), st.Texts())
    ensures TokenTrees.Flatten(st, ts, inner, bound) == Spelled(st, Expand(st, base, ts, bound), inner)
    decreases bound, |ts|
  {
    hide Store.Shaped, Store.WellFounded, Built;
    if ts != [] {
      assert TokenTrees.RefsBelow(ts[1..], bound) && OnlyBuilt(ts[1..]);
      FlattenIsExpansion(st, base, ts[1..], inner, bound);
      HeadIsExpansion(st, base, ts[0], inner);
      var head := HeadItems(st, base, ts[0]);
      SpelledAppend(st, head, Expand(st, base, ts[1..], bound), inner);
    }
  }

  function HeadItems(st: Store, base: nat, t: Tok): seq<Item<nat>>
    requires st.Ok() && (t.Text? ==> t.text < st.Texts())
  {
    match t
    case Chr(s) => [Glue(s)]
    case Text(u) => ExpandText(st, base, u)
    case _ => []
  }

  lemma {:induction false} HeadIsExpansion(st: Store, base: nat, t: Tok, inner: bool)
    requires st.Ok() && Built(st, base) && (t.Chr? || (t.Text? && t.text < st.Texts()))
    ensures PiecesBelow(HeadItems(st, base, t), st.Texts())
    ensures t.Chr? ==> Spelled(st, HeadItems(st, base, t), inner) == [TokenTrees.Lexeme(t, inner)]
    ensures t.Text? ==> TokenTrees.RefsBelow(st.TextToks(t.text), t.text)
                        && Spelled(st, HeadItems(st, base, t), inner) ==
                          TokenTrees.Flatten(st, st.TextToks(t.text), inner, t.text)
    decreases if t.Text? then t.text else 0, if t.Text? then |st.toks| + 1 else 0
  {
    if t.Text? {
      TokenTrees.TextBelow(st, t.text);
      if t.text >= base {
        BuiltText(st, base, t.text);
        FlattenIsExpansion(st, base, st.TextToks(t.text), inner, t.text);
      }
    }
    var one := HeadItems(st, base, t);
    assert |one| == 1 ==> one[1..] == [];
  }

  // ---------- the input texts, before and after ----------

  /** The same tokens in the same modes, but for identifiers that have become reserved words. */
  predicate SameRead(a: seq<TokenTrees.Lexeme>, b: seq<TokenTrees.Lexeme>) {
    |a| == |b| && forall i :: 0 <= i < |a| ==> SameButReserved(a[i].tok, b[i].tok) && a[i].inner == b[i].inner
  }

  lemma SameReadAppend(a: seq<TokenTrees.Lexeme>, a': seq<TokenTrees.Lexeme>, b: seq<TokenTrees.Lexeme>,
                       b': seq<TokenTrees.Lexeme>)
    requires SameRead(a, a') && SameRead(b, b')
    ensures SameRead(a + b, a' + b')
  {
  }

  lemma TextLater(st: Store, st': Store, t: nat)
    requires st.Ok() && st'.Ok() && Later(st, st') && st.starts <= st'.starts && t < st.Texts()
    ensures ToksSameButReserved(st.TextToks(t), st'.TextToks(t))
  {
    TokenTrees.TextBelow(st, t);
    TokenTrees.TextBelow(st', t);
    assert st'.starts[t] == st.starts[t] && st'.starts[t + 1] == st.starts[t + 1];
    forall i | 0 <= i < |st.TextToks(t)|
      ensures SameButReserved(st.TextToks(t)[i], st'.TextToks(t)[i])
    {
      assert SameButReserved(st.toks[st.starts[t] + i], st'.toks[st.starts[t] + i]);
    }
  }

  /** Reading an old text in a later store gives the same, up to identifiers made reserved. */
  lemma {:induction false} FlattenLater(st: Store, st': Store, ts: seq<Tok>, ts': seq<Tok>, inner: bool, bound: nat)
    requires st.Ok() && st'.Ok() && Later(st, st') && st.starts <= st'.starts && bound <= st.Texts()
    requires ToksSameButReserved(ts, ts') && TokenTrees.RefsBelow(ts, bound) && TokenTrees.RefsBelow(ts', bound)
    ensures SameRead(TokenTrees.Flatten(st, ts, inner, bound), TokenTrees.Flatten(st', ts', inner, bound))
    decreases bound, |ts|
  {
    hide Store.Shaped, Store.WellFounded, Later, SameRead;
    if ts == [] {
      assert ts' == [];
      NothingRead();
    } else {
      assert SameButReserved(ts[0], ts'[0]);
      assert ToksSameButReserved(ts[1..], ts'[1..]);
      assert TokenTrees.RefsBelow(ts[1..], bound) && TokenTrees.RefsBelow(ts'[1..], bound);
      FlattenLater(st, st', ts[1..], ts'[1..], inner, bound);
      var rest, rest' := TokenTrees.Flatten(st, ts[1..], inner, bound), TokenTrees.Flatten(st', ts'[1..], inner, bound);
      if TokenTrees.IsText(ts[0]) {
        var u := ts[0].text;
        var in' := inner || ts[0].Inner?;
        TokenTrees.TextBelow(st, u);
        TokenTrees.TextBelow(st', u);
        TextLater(st, st', u);
        FlattenLater(st, st', st.TextToks(u), st'.TextToks(u), in', u);
        SameReadAppend(TokenTrees.Flatten(st, st.TextToks(u), in', u), TokenTrees.Flatten(st', st'.TextToks(u), in', u),
                       rest, rest');
      } else {
        OneRead(ts[0], ts'[0], inner);
        SameReadAppend([TokenTrees.Lexeme(ts[0], inner)], [TokenTrees.Lexeme(ts'[0], inner)], rest, rest');
      }
    }
  }

  lemma NothingRead()
    ensures SameRead([], [])
  {
  }

  lemma OneRead(t: Tok, t': Tok, inner: bool)
    requires SameButReserved(t, t')
    ensures SameRead([TokenTrees.Lexeme(t, inner)], [TokenTrees.Lexeme(t', inner)])
  {
  }

  /** So is reading typeset text with old texts in it. */
  lemma {:induction false} SpelledLater(st: Store, st': Store, items: seq<Item<nat>>, inner: bool)
    requires st.Ok() && st'.Ok() && Later(st, st') && st.starts <= st'.starts && PiecesBelow(items, st.Texts())
    ensures st.Texts() <= st'.Texts() && PiecesBelow(items, st'.Texts())
    ensures SameRead(Spelled(st, items, inner), Spelled(st', items, inner))
  {
    hide Store.Shaped, Store.WellFounded, Later, SameRead, TokenTrees.Flatten, TokenTrees.RefsBelow;
    if items == [] {
      NothingRead();
    } else {
      assert PiecesBelow(items[1..], st.Texts());
      SpelledLater(st, st', items[1..], inner);
      var rest, rest' := Spelled(st, items[1..], inner), Spelled(st', items[1..], inner);
      match items[0]
      case Glue(s) =>
        OneRead(Chr(s), Chr(s), inner);
        SameReadAppend([TokenTrees.Lexeme(Chr(s), inner)], [TokenTrees.Lexeme(Chr(s), inner)], rest, rest');
      case Piece(u) =>
        TokenTrees.TextBelow(st, u);
        TokenTrees.TextBelow(st', u);
        TextLater(st, st', u);
        FlattenLater(st, st', st.TextToks(u), st'.TextToks(u), inner, u);
        SameReadAppend(TokenTrees.Flatten(st, st.TextToks(u), inner, u),
                       TokenTrees.Flatten(st', st'.TextToks(u), inner, u),
                       rest, rest');
    }
  }

  /** Every piece of typeset text that shows the right parts is a scrap of the input. */
  lemma {:induction false} PiecesVisible(items: seq<Item<Scrap>>, s: Scrap)
    requires Piece(s) in items
    ensures Piece(s) in Visible(items)
  {
    if items[0] != Piece(s) {
      PiecesVisible(items[1..], s);
    }
  }

  lemma {:induction false} ShownCovered(parts: seq<Part>, s: Scrap)
    requires Piece(s) in Shown(parts)
    ensures s in Covered(parts)
  {
    if parts[0] != Kept(s) {
      ShownCovered(parts[1..], s);
    }
  }

  lemma {:induction false} NamesBelow(items: seq<Item<Scrap>>, bound: int)
    requires forall s :: Piece(s) in items ==> s.trans < bound
    ensures PiecesBelow(Names(items), bound)
  {
    if items != [] {
      assert items[0] in items;
      NamesBelow(items[1..], bound);
    }
  }

  /** The typeset text of derivations of the input refers to input texts only. */
  lemma InputPieces(input: seq<Scrap>, st: Store, items: seq<Item<Scrap>>, parts: seq<Part>)
    requires Good(State(input, 0, st)) && Covered(parts) == input && Visible(items) == Shown(parts)
    ensures forall s :: Piece(s) in items ==> s in input
    ensures PiecesBelow(Names(items), st.Texts())
  {
    hide Covered, Visible, Shown, Names, Store.Ok, PiecesBelow;
    forall s | Piece(s) in items
      ensures s in input && s.trans < st.Texts()
    {
      PiecesVisible(items, s);
      ShownCovered(parts, s);
      var i :| 0 <= i < |input| && input[i] == s;
      assert GoodScrap(input[i], st);
    }
    NamesBelow(items, st.Texts());
  }

  // ---------- indentation ----------

  /** Indents minus outdents among tokens that are read. */
  function Net(xs: seq<TokenTrees.Lexeme>): int {
    if xs == [] then 0 else (match xs[0].tok case Chr(s) => Change(s) case _ => 0) + Net(xs[1..])
  }

  lemma {:induction false} NetConcat(a: seq<TokenTrees.Lexeme>, b: seq<TokenTrees.Lexeme>)
    ensures Net(a + b) == Net(a) + Net(b)
  {
    if a == [] {
      assert a + b == b;
    } else {
      assert (a + b)[0] == a[0] && (a + b)[1..] == a[1..] + b;
      NetConcat(a[1..], b);
    }
  }

  lemma {:induction false} NetSame(a: seq<TokenTrees.Lexeme>, b: seq<TokenTrees.Lexeme>)
    requires SameRead(a, b)
    ensures Net(a) == Net(b)
  {
    if a != [] {
      assert SameButReserved(a[0].tok, b[0].tok);
      NetSame(a[1..], b[1..]);
    }
  }

  /** The text of a scrap leaves no indents open. */
  predicate Balanced(s: Scrap, st: Store, inner: bool)
    requires st.Ok()
  {
    s.trans < st.Texts() &&
    (TokenTrees.TextBelow(st, s.trans);
     Net(TokenTrees.Flatten(st, st.TextToks(s.trans), inner, s.trans)) == 0)
  }

  lemma {:induction false} SpelledNet(st: Store, items: seq<Item<Scrap>>, inner: bool)
    requires st.Ok() && PiecesBelow(Names(items), st.Texts()) && forall s :: Piece(s) in items ==>
             Balanced(s, st, inner)
    ensures Net(Spelled(st, Names(items), inner)) == NetIndent(items)
  {
    hide Store.Shaped, Store.WellFounded, TokenTrees.Flatten, TokenTrees.RefsBelow;
    if items != [] {
      var names := Names(items);
      assert names[1..] == Names(items[1..]);
      assert PiecesBelow(names[1..], st.Texts());
      SpelledNet(st, items[1..], inner);
      var rest := Spelled(st, names[1..], inner);
      match items[0]
      case Glue(s) =>
        var one := [TokenTrees.Lexeme(Chr(s), inner)];
        NetConcat(one, rest);
        assert one[1..] == [] && Net(one) == Change(s);
      case Piece(s) =>
        assert items[0] in items && Balanced(s, st, inner);
        TokenTrees.TextBelow(st, s.trans);
        NetConcat(TokenTrees.Flatten(st, st.TextToks(s.trans), inner, s.trans), rest);
    }
  }

  // ---------- all together ----------

  /** What is read of the result of `translate`. */
  function Read(input: seq<Scrap>, st: Store, forceLines: bool, inner: bool): seq<TokenTrees.Lexeme>
    requires Good(State(input, 0, st)) && Translated(input, st, forceLines).Ok()
    requires Translated(input, st, forceLines).Texts() > 0
  {
    var r := Translated(input, st, forceLines);
    TokenTrees.TextBelow(r, r.Texts() - 1);
    TokenTrees.Flatten(r, r.TextToks(r.Texts() - 1), inner, r.Texts() - 1)
  }

  /** What `translate` returns, when it is read token by token: the typeset text of a forest of derivations of the whole
      input, with the tokens that the input texts had before in the places of the scraps, up to identifiers made
      reserved. It starts and ends outside math and meets everything in a mode that suits it; every scrap is there once
      and in order, but for those that an angle sign replaced; and without macro-argument brackets, only fn_decl scraps
      leave indents open. */
  lemma TranslateIsSound(input: seq<Scrap>, st: Store, forceLines: bool, inner: bool) returns (forest: seq<Tree>)
    requires Good(State(input, 0, st))
    ensures Translated(input, st, forceLines).Ok() && Translated(input, st, forceLines).Texts() > 0
    ensures PiecesBelow(Names(JoinOut(forest, 0)), st.Texts())
    ensures SameRead(Spelled(st, Names(JoinOut(forest, 0)), inner), Read(input, st, forceLines, inner))
    ensures (forall i :: 0 <= i < |forest| ==> Valid(forest[i])) && LeavesOf(forest) == input
    ensures Run(JoinOut(forest, 0), false) == Some(false)
    ensures Covered(PartsOf(forest)) == input && Visible(JoinOut(forest, 0)) == Shown(PartsOf(forest))
    ensures forall p :: p in PartsOf(forest) ==> ReplacedRightly(p)
    ensures (forall s :: s in input ==> !s.cat.FnDecl? && !s.cat.EndArg?) ==>
            NetIndent(JoinOut(forest, 0)) == SumOpen(forest)
    ensures (forall s :: s in input ==> !s.cat.FnDecl? && !s.cat.EndArg? && Balanced(s, st, inner)) ==>
            Net(Read(input, st, forceLines, inner)) == SumOpen(forest)
  {
    hide Translated, Run, JoinOut, Valid, Spelled, Expand, Built, TokenTrees.Flatten, SameRead, Later, PiecesBelow,
         Balanced,
      Good, NetIndent, Net, Names, ReplacedRightly;
    forest := TranslateDerives(input, st, forceLines);
    var r, items := Translated(input, st, forceLines), JoinOut(forest, 0);
    GoodStore(input, st);
    TranslateReads(r, st.Texts(), r.Texts() - 1, inner);
    TranslateRuns(forest);
    TranslateConserves(forest);
    InputPieces(input, st, items, PartsOf(forest));
    TranslateKeepsTokens(input, st, forceLines);
    SpelledLater(st, r, Names(items), inner);
    if forall s :: s in input ==> !s.cat.FnDecl? && !s.cat.EndArg? {
      TranslateIndents(forest);
      if forall s :: s in input ==> Balanced(s, st, inner) {
        SpelledNet(st, items, inner);
        NetSame(Spelled(st, Names(items), inner), Read(input, st, forceLines, inner));
      }
    }
  }

  lemma GoodStore(input: seq<Scrap>, st: Store)
    requires Good(State(input, 0, st))
    ensures st.Ok() && st.Texts() >= 0
  {
  }

  lemma TranslateReads(r: Store, base: nat, t: nat, inner: bool)
    requires r.Ok() && Built(r, base) && base <= t < r.Texts()
    ensures TokenTrees.RefsBelow(r.TextToks(t), t) && PiecesBelow(ExpandText(r, base, t), r.Texts())
    ensures TokenTrees.Flatten(r, r.TextToks(t), inner, t) == Spelled(r, ExpandText(r, base, t), inner)
  {
    TokenTrees.TextBelow(r, t);
    BuiltText(r, base, t);
    FlattenIsExpansion(r, base, r.TextToks(t), inner, t);
  }
}
