/** How the texts of a section are linked: a new text goes to the end of its section, and no other section changes. */
module TangleSections {
  import opened TangleTokens
  import opened TangleExpansion
  import opened TangleMachine

  /** Every text of a section belongs to one name; 0 stands for the unnamed section. */
  ghost predicate Owned(tb: Table, owner: seq<nat>)
    requires tb.Ok()
  {
    && |owner| == |tb.texts| && owner[0] == 0 && 0 < |tb.equiv| && tb.equiv[0] == 0
    && (forall t :: 0 <= t < |tb.texts| && tb.link[t] != 0 && tb.link[t] != SECTION_FLAG ==>
        owner[tb.link[t]] == owner[t])
    && (forall n :: 0 <= n < |tb.equiv| && tb.equiv[n] != 0 ==> owner[tb.equiv[n]] == n)
  }

  /** The texts of the unnamed section. */
  ghost function Unnamed(tb: Table): seq<nat>
    requires tb.Ok()
  {
    if tb.link[0] == 0 then [] else Chain(tb, tb.link[0])
  }

  /** The texts of section `n`; 0 stands for the unnamed section. */
  ghost function SectionTexts(tb: Table, n: nat): seq<nat>
    requires tb.Ok() && n < |tb.equiv|
  {
    if n == 0 then Unnamed(tb) else TextsOf(tb, n)
  }

  function Last(c: seq<nat>): nat {
    if c == [] then 0 else c[|c| - 1]
  }

  lemma {:induction false} ChainOwned(tb: Table, owner: seq<nat>, t: nat)
    requires tb.Ok() && Owned(tb, owner) && tb.Sectional(t)
    ensures forall i :: 0 <= i < |Chain(tb, t)| ==> owner[Chain(tb, t)[i]] == owner[t]
    ensures tb.link[Last(Chain(tb, t))] == SECTION_FLAG
    decreases |tb.texts| - t
  {
    if tb.link[t] != SECTION_FLAG {
      ChainOwned(tb, owner, tb.link[t]);
    }
  }

  /** `tb'` is `tb` with text `t` linked to text `q`. */
  ghost predicate Linked(tb: Table, tb': Table, q: nat, t: nat)
    requires tb.Ok()
  {
    && 0 < t < |tb.texts| && tb.link[t] == 0 && q < t
    && tb' == tb.(link := tb.link[q := t][t := SECTION_FLAG])
    && (tb.link[q] == SECTION_FLAG || (q == 0 && tb.link[0] == 0))
  }

  lemma LinkedOk(tb: Table, tb': Table, owner: seq<nat>, q: nat, t: nat)
    requires tb.Ok() && Owned(tb, owner) && Linked(tb, tb', q, t)
    ensures tb'.Ok() && Owned(tb', owner[t := owner[q]])
  {
    forall n | 0 <= n < |tb'.equiv|
      ensures tb'.equiv[n] < |tb'.texts| && (tb'.equiv[n] != 0 ==> tb'.link[tb'.equiv[n]] != 0)
    {
      assert tb.equiv[n] < |tb.texts| && (tb.equiv[n] != 0 ==> tb.link[tb.equiv[n]] != 0);
    }
    assert forall u :: 0 <= u < |tb.texts| && tb.link[u] != 0 && tb.link[u] != SECTION_FLAG ==> tb.link[u] != t;
  }

  lemma {:induction false} ChainKept(tb: Table, tb': Table, owner: seq<nat>, q: nat, t: nat, u: nat)
    requires tb.Ok() && tb'.Ok() && Owned(tb, owner) && Linked(tb, tb', q, t) && tb.Sectional(u)
    ensures tb'.Sectional(u)
    ensures Chain(tb', u) == if Last(Chain(tb, u)) == q then Chain(tb, u) + [t] else Chain(tb, u)
    decreases |tb.texts| - u
  {
    if tb.link[u] != SECTION_FLAG {
      ChainKept(tb, tb', owner, q, t, tb.link[u]);
      assert Last(Chain(tb, u)) == Last(Chain(tb, tb.link[u]));
    }
  }

  /** The section of `q` gets text `t` at its end, and the others stay as they are. */
  lemma SectionsKept(tb: Table, tb': Table, owner: seq<nat>, q: nat, t: nat, n: nat)
    requires tb.Ok() && tb'.Ok() && Owned(tb, owner) && Linked(tb, tb', q, t) && n < |tb.equiv|
    requires owner[q] < |tb.equiv| && q == Last(SectionTexts(tb, owner[q]))
    ensures SectionTexts(tb', n) == if n == owner[q] then SectionTexts(tb, n) + [t] else SectionTexts(tb, n)
  {
    var first := if n == 0 then tb.link[0] else tb.equiv[n];
    if first != 0 {
      ChainKept(tb, tb', owner, q, t, first);
      ChainOwned(tb, owner, first);
      assert owner[Last(Chain(tb, first))] == n;
    }
  }

  /** The first text of a section with a name. */
  lemma FirstText(tb: Table, tb': Table, owner: seq<nat>, p: nat, t: nat, n: nat)
    requires tb.Ok() && Owned(tb, owner) && 0 < t < |tb.texts| && tb.link[t] == 0
    requires 0 < p < |tb.equiv| && tb.equiv[p] == 0 && n < |tb.equiv|
    requires tb' == tb.(link := tb.link[t := SECTION_FLAG], equiv := tb.equiv[p := t])
    ensures tb'.Ok() && Owned(tb', owner[t := p])
    ensures SectionTexts(tb', n) == if n == p then [t] else SectionTexts(tb, n)
  {
    FirstOk(tb, tb', owner, p, t);
    var first := if n == 0 then tb.link[0] else tb.equiv[n];
    if n != p && first != 0 {
      ChainSame(tb, tb', first);
    }
  }

  lemma FirstOk(tb: Table, tb': Table, owner: seq<nat>, p: nat, t: nat)
    requires tb.Ok() && Owned(tb, owner) && 0 < t < |tb.texts| && tb.link[t] == 0
    requires 0 < p < |tb.equiv| && tb.equiv[p] == 0
    requires tb' == tb.(link := tb.link[t := SECTION_FLAG], equiv := tb.equiv[p := t])
    ensures tb'.Ok() && Owned(tb', owner[t := p])
  {
    assert forall u :: 0 <= u < |tb.texts| && tb.link[u] != 0 && tb.link[u] != SECTION_FLAG ==> tb.link[u] != t;
    forall n | 0 <= n < |tb'.equiv|
      ensures tb'.equiv[n] < |tb'.texts| && (tb'.equiv[n] != 0 ==> tb'.link[tb'.equiv[n]] != 0)
    {
      assert tb.equiv[n] < |tb.texts| && (tb.equiv[n] != 0 ==> tb.link[tb.equiv[n]] != 0);
    }
  }

  /** A chain does not change if its links do not. */
  lemma {:induction false} ChainSame(tb: Table, tb': Table, u: nat)
    requires tb.Ok() && tb'.Ok() && tb.Sectional(u) && |tb.texts| <= |tb'.texts|
    requires forall v :: 0 <= v < |tb.link| && tb.link[v] != 0 ==> tb'.link[v] == tb.link[v]
    ensures tb'.Sectional(u) && Chain(tb', u) == Chain(tb, u)
    decreases |tb.texts| - u
  {
    if tb.link[u] != SECTION_FLAG {
      ChainSame(tb, tb', tb.link[u]);
    }
  }

  /** A new name, without texts. */
  lemma NewName(tb: Table, tb': Table, owner: seq<nat>, n: nat)
    requires tb.Ok() && Owned(tb, owner) && n < |tb.equiv| && tb' == tb.(equiv := tb.equiv + [0])
    ensures tb'.Ok() && Owned(tb', owner) && SectionTexts(tb', n) == SectionTexts(tb, n)
  {
    forall m | 0 <= m < |tb'.equiv|
      ensures tb'.equiv[m] < |tb'.texts| && (tb'.equiv[m] != 0 ==> tb'.link[tb'.equiv[m]] != 0)
    {
      assert m < |tb.equiv| ==> tb.equiv[m] < |tb.texts| && (tb.equiv[m] != 0 ==> tb.link[tb.equiv[m]] != 0);
    }
    forall t | 0 <= t < |tb'.texts|
      ensures tb'.RefsIn(tb'.texts[t])
    {
      assert tb.RefsIn(tb.texts[t]);
    }
    var first := if n == 0 then tb.link[0] else tb.equiv[n];
    if first != 0 {
      ChainSame(tb, tb', first);
    }
  }

  /** A new text, which does not belong to a section yet. */
  lemma NewText(tb: Table, tb': Table, owner: seq<nat>, ts: seq<Token>, n: nat)
    requires tb.Ok() && Owned(tb, owner) && WellFormed(ts, false) && tb.RefsIn(ts) && |tb.texts| < SECTION_FLAG
    requires tb' == tb.(texts := tb.texts + [ts], link := tb.link + [0]) && n < |tb.equiv|
    ensures tb'.Ok() && Owned(tb', owner + [0]) && SectionTexts(tb', n) == SectionTexts(tb, n)
  {
    NewTextOk(tb, tb', owner, ts);
    var first := if n == 0 then tb.link[0] else tb.equiv[n];
    if first != 0 {
      ChainSame(tb, tb', first);
    }
  }

  lemma NewTextOk(tb: Table, tb': Table, owner: seq<nat>, ts: seq<Token>)
    requires tb.Ok() && Owned(tb, owner) && WellFormed(ts, false) && tb.RefsIn(ts) && |tb.texts| < SECTION_FLAG
    requires tb' == tb.(texts := tb.texts + [ts], link := tb.link + [0])
    ensures tb'.Ok() && Owned(tb', owner + [0])
  {
    forall n | 0 <= n < |tb'.equiv|
      ensures tb'.equiv[n] < |tb'.texts| && (tb'.equiv[n] != 0 ==> tb'.link[tb'.equiv[n]] != 0)
    {
      assert tb.equiv[n] < |tb.texts| && (tb.equiv[n] != 0 ==> tb.link[tb.equiv[n]] != 0);
    }
    forall t | 0 <= t < |tb'.texts|
      ensures WellFormed(tb'.texts[t], false) && tb'.RefsIn(tb'.texts[t])
    {
      if t < |tb.texts| {
        assert WellFormed(tb.texts[t], false) && tb.RefsIn(tb.texts[t]);
      }
    }
  }

  // ---------- the same with the token memory ----------

  /** `m'` is `m` with another text. */
  ghost predicate Extended(m: Memory, m': Memory, ts: seq<Token>)
    requires WellFormed(ts, false)
  {
    && m'.mem == m.mem + Encode(ts, false) && m'.starts == m.starts + [|m'.mem|]
    && m'.table == m.table.(texts := m.table.texts + [ts], link := m.table.link + [0])
  }

  lemma ExtendedOk(m: Memory, m': Memory, owner: seq<nat>, ts: seq<Token>)
    requires m.Ok() && Owned(m.table, owner) && WellFormed(ts, false) && m.table.RefsIn(ts)
    requires |m.table.texts| < SECTION_FLAG && Extended(m, m', ts)
    ensures m'.Ok() && Owned(m'.table, owner + [0])
    ensures forall n: nat :: n < |m.table.equiv| ==> SectionTexts(m'.table, n) == SectionTexts(m.table, n)
  {
    hide SectionTexts, Owned;
    NewTextOk(m.table, m'.table, owner, ts);
    forall t: nat | t < |m'.table.texts|
      ensures m'.Stored(t)
    {
      if t < |m.table.texts| {
        assert m.Stored(t);
        assert m'.mem[m.starts[t]..m.starts[t + 1]] == m.mem[m.starts[t]..m.starts[t + 1]];
      }
    }
    forall n: nat | n < |m.table.equiv|
      ensures SectionTexts(m'.table, n) == SectionTexts(m.table, n)
    {
      NewText(m.table, m'.table, owner, ts, n);
    }
  }

  /** Links do not matter for what is stored. */
  lemma RelinkedOk(m: Memory, tb: Table)
    requires m.Ok() && tb.Ok() && tb.texts == m.table.texts
    ensures m.(table := tb).Ok()
  {
    forall t: nat | t < |tb.texts|
      ensures m.(table := tb).Stored(t)
    {
      assert m.Stored(t);
    }
  }

  /** The table after a new text `t` for section `p`, linked to `q` if that is not the first one. */
  ghost predicate Attached(tb: Table, tb': Table, p: nat, q: nat, t: nat)
    requires tb.Ok()
  {
    && p < |tb.equiv| && 0 < t < |tb.texts| && tb.link[t] == 0
    && if p != 0 && tb.equiv[p] == 0 then tb' == tb.(link := tb.link[t := SECTION_FLAG], equiv := tb.equiv[p := t])
       else Linked(tb, tb', q, t) && q == Last(SectionTexts(tb, p))
  }

  lemma AttachedOk(tb: Table, tb': Table, owner: seq<nat>, p: nat, q: nat, t: nat)
    requires tb.Ok() && Owned(tb, owner) && Attached(tb, tb', p, q, t)
    ensures tb'.Ok() && Owned(tb', owner[t := p])
    ensures forall n: nat :: n < |tb.equiv| ==> SectionTexts(tb', n) == SectionTexts(tb, n) + if n == p then [t] else []
  {
    if p != 0 && tb.equiv[p] == 0 {
      FirstOk(tb, tb', owner, p, t);
      forall n: nat | n < |tb.equiv|
        ensures SectionTexts(tb', n) == SectionTexts(tb, n) + if n == p then [t] else []
      {
        FirstText(tb, tb', owner, p, t, n);
      }
    } else {
      LastOwned(tb, owner, p);
      LinkedOk(tb, tb', owner, q, t);
      forall n: nat | n < |tb.equiv|
        ensures SectionTexts(tb', n) == SectionTexts(tb, n) + if n == p then [t] else []
      {
        SectionsKept(tb, tb', owner, q, t, n);
      }
    }
  }

  lemma LastOwned(tb: Table, owner: seq<nat>, p: nat)
    requires tb.Ok() && Owned(tb, owner) && p < |tb.equiv| && (p != 0 ==> tb.equiv[p] != 0)
    ensures Last(SectionTexts(tb, p)) < |tb.texts| && owner[Last(SectionTexts(tb, p))] == p
  {
    var first := if p == 0 then tb.link[0] else tb.equiv[p];
    if first != 0 {
      ChainOwned(tb, owner, first);
      assert owner[first] == p;
    }
  }

  lemma UnnamedIs(tb: Table, tb': Table)
    requires tb.Ok() && tb'.Ok() && 0 < |tb.equiv| && 0 < |tb'.equiv| && SectionTexts(tb', 0) == SectionTexts(tb, 0)
    ensures Unnamed(tb') == Unnamed(tb)
  {
  }

  lemma NextInChain(tb: Table, q: nat)
    requires tb.Ok() && tb.Sectional(q)
    ensures tb.link[q] == SECTION_FLAG ==> Last(Chain(tb, q)) == q
    ensures tb.link[q] != SECTION_FLAG ==>
              tb.link[q] > q && tb.Sectional(tb.link[q]) && Last(Chain(tb, q)) == Last(Chain(tb, tb.link[q]))
  {
  }

  /** The new text is as `scan_section` makes it. */
  lemma StillScanned(tb: Table, tb': Table, ts: seq<Token>)
    requires Scanned(tb) && tb'.Ok() && Numbered(ts) && tb'.texts == tb.texts + [ts] && tb'.link[|tb.texts|] != 0
    requires forall u :: 0 < u < |tb.texts| ==> (tb'.link[u] == 0 <==> tb.link[u] == 0)
    ensures Scanned(tb')
  {
  }

  lemma UnnamedLast(tb: Table, tb': Table, p: nat, t: nat)
    requires tb.Ok() && tb'.Ok() && p < |tb.equiv| == |tb'.equiv|
    requires SectionTexts(tb', 0) == SectionTexts(tb, 0) + if 0 == p then [t] else []
    ensures Last(Unnamed(tb')) == if p == 0 then t else Last(Unnamed(tb))
  {
  }

  /** Where the next text of section `p` goes, once it has one. */
  lemma LastText(tb: Table, owner: seq<nat>, p: nat, t: nat)
    requires tb.Ok() && Owned(tb, owner) && p < |tb.equiv| && t < |tb.texts| && tb.link[t] == 0 && t > 0
    requires forall u :: t < u < |tb.texts| ==> tb.link[u] == 0
    ensures p != 0 && tb.equiv[p] != 0 ==> tb.Sectional(tb.equiv[p]) && SectionTexts(tb, p) == Chain(tb, tb.equiv[p])
    ensures p == 0 || tb.equiv[p] != 0 ==>
              var q := Last(SectionTexts(tb, p));
              q < t && (tb.link[q] == SECTION_FLAG || (q == 0 && tb.link[0] == 0))
    ensures SectionTexts(tb, 0) == Unnamed(tb)
  {
    if p != 0 && tb.equiv[p] != 0 {
      ChainOwned(tb, owner, tb.equiv[p]);
    } else if p == 0 && tb.link[0] != 0 {
      ChainOwned(tb, owner, tb.link[0]);
    }
  }

  /** The state of the tables between two sections of the web file. */
  ghost predicate Between(m: Memory, owner: seq<nat>, lastUnnamed: nat) {
    m.Ok() && Scanned(m.table) && Owned(m.table, owner) && lastUnnamed == Last(Unnamed(m.table))
  }

  lemma BetweenIs(m: Memory, owner: seq<nat>, lastUnnamed: nat)
    requires Between(m, owner, lastUnnamed)
    ensures m.Ok() && |m.table.link| == |m.table.texts| == |owner| && |m.starts| == |m.table.texts| + 1
    ensures |m.table.equiv| > 0 && |m.table.texts| > 0 && lastUnnamed < |m.table.texts|
  {
    hide Numbered, NoMarks;
    if m.table.link[0] != 0 {
      ChainOwned(m.table, owner, m.table.link[0]);
    }
  }

  lemma NameAdded(m: Memory, m': Memory, owner: seq<nat>, lastUnnamed: nat)
    requires Between(m, owner, lastUnnamed) && m' == m.(table := m.table.(equiv := m.table.equiv + [0]))
    ensures Between(m', owner, lastUnnamed)
    ensures forall k: nat :: k < |m.table.equiv| ==> SectionTexts(m'.table, k) == SectionTexts(m.table, k)
  {
    hide SectionTexts, Unnamed, NoMarks, Numbered, Memory.Stored;
    forall k: nat | k < |m.table.equiv|
      ensures m'.table.Ok() && Owned(m'.table, owner) && SectionTexts(m'.table, k) == SectionTexts(m.table, k)
    {
      NewName(m.table, m'.table, owner, k);
    }
    assert SectionTexts(m'.table, 0) == SectionTexts(m.table, 0);
    UnnamedIs(m.table, m'.table);
    RelinkedOk(m, m'.table);
  }

  lemma MacroAdded(m: Memory, m': Memory, owner: seq<nat>, lastUnnamed: nat, ts: seq<Token>)
    requires Between(m, owner, lastUnnamed) && WellFormed(ts, false) && m.table.RefsIn(ts) && NoMarks(ts)
    requires |m.table.texts| < SECTION_FLAG && Extended(m, m', ts)
    ensures Between(m', owner + [0], lastUnnamed)
    ensures forall k: nat :: k < |m.table.equiv| ==> SectionTexts(m'.table, k) == SectionTexts(m.table, k)
  {
    ExtendedOk(m, m', owner, ts);
    hide SectionTexts, Unnamed, NoMarks, Numbered, Memory.Stored;
    UnnamedIs(m.table, m'.table);
  }

  lemma SectionAdded(m: Memory, m1: Memory, m2: Memory, owner: seq<nat>, lastUnnamed: nat, ts: seq<Token>, p: nat,
                     q: nat)
    requires Between(m, owner, lastUnnamed) && WellFormed(ts, false) && m.table.RefsIn(ts) && Numbered(ts)
    requires |m.table.texts| < SECTION_FLAG && Extended(m, m1, ts)
    requires m1.Ok() && Owned(m1.table, owner + [0]) && Attached(m1.table, m2.table, p, q, |m.table.texts|)
    requires m2 == m1.(table := m2.table)
    ensures Between(m2, owner + [p], if p == 0 then |m.table.texts| else lastUnnamed)
    ensures forall k: nat :: k < |m.table.equiv| ==>
              SectionTexts(m2.table, k) == SectionTexts(m.table, k) + if k == p then [|m.table.texts|] else []
  {
    hide SectionTexts, Unnamed, NoMarks, Numbered, Memory.Stored, Attached;
    var t := |m.table.texts|;
    ExtendedOk(m, m1, owner, ts);
    AttachedTexts(m1.table, m2.table, p, q, t);
    AttachedOk(m1.table, m2.table, owner + [0], p, q, t);
    assert (owner + [0])[t := p] == owner + [p];
    assert SectionTexts(m2.table, 0) == SectionTexts(m1.table, 0) + if 0 == p then [t] else [];
    RelinkedOk(m1, m2.table);
    StillScanned(m.table, m2.table, ts);
    UnnamedLast(m1.table, m2.table, p, t);
    UnnamedIs(m.table, m1.table);
  }

  lemma AttachedTexts(tb: Table, tb': Table, p: nat, q: nat, t: nat)
    requires tb.Ok() && Attached(tb, tb', p, q, t)
    ensures p < |tb.equiv| && tb'.texts == tb.texts && |tb'.link| == |tb.link| && |tb'.equiv| == |tb.equiv|
            && tb'.link[t] != 0
    ensures forall u :: 0 < u < |tb.texts| && u != t ==> (tb'.link[u] == 0 <==> tb.link[u] == 0)
  {
  }

  /** The tables before the new text is linked. */
  lemma BeforeLink(m: Memory, m1: Memory, owner: seq<nat>, lastUnnamed: nat, ts: seq<Token>, p: nat)
    requires Between(m, owner, lastUnnamed) && WellFormed(ts, false) && m.table.RefsIn(ts) && p < |m.table.equiv|
    requires |m.table.texts| < SECTION_FLAG && Extended(m, m1, ts)
    ensures var t, tb := |m.table.texts|, m1.table;
      && m1.Ok() && tb.Ok() && Owned(tb, owner + [0]) && 0 < t < |tb.texts| == |tb.link| && tb.link[t] == 0
      && (p != 0 && tb.equiv[p] != 0 ==> tb.Sectional(tb.equiv[p]) && SectionTexts(tb, p) == Chain(tb, tb.equiv[p]))
      && (p == 0 || tb.equiv[p] != 0 ==>
            var q := Last(SectionTexts(tb, p));
            q < t && (tb.link[q] == SECTION_FLAG || (q == 0 && tb.link[0] == 0)))
      && Last(SectionTexts(tb, 0)) == lastUnnamed
  {
    ExtendedOk(m, m1, owner, ts);
    hide SectionTexts, Unnamed, Memory.Stored;
    LastText(m1.table, owner + [0], p, |m.table.texts|);
    UnnamedIs(m.table, m1.table);
  }
}
