/** The parser as rewriting at the leftmost match: when it goes back far enough, in a step and in a whole run. */
module LeftmostRuns {
  import opened Scraps
  import opened Productions
  import opened Parsing
  import opened LeftmostMatches
  import Reservations

  /** No production matches at position `i`. */
  predicate Quiet(ps: State, i: nat, forceLines: bool) {
    ActionAt(ps.(pos := i), forceLines).NoMatch?
  }

  /** No production matches at a position that the parser has passed. */
  predicate Clear(ps: State, forceLines: bool) {
    forall i :: 0 <= i < ps.pos ==> Quiet(ps, i, forceLines)
  }

  /** The category `j` positions before. */
  function Before(ps: State, j: nat): (c: Cat)
    ensures ps.pos < j ==> c.Zero?
  {
    if ps.pos >= j then CatAt(ps.scraps, ps.pos - j) else Zero
  }

  /** The next step passes over a match that it makes possible. */
  predicate Slips(ps: State, forceLines: bool) {
    var a, v := ActionAt(ps, forceLines), ViewAt(ps.scraps, ps.pos, forceLines);
    var c4, c5 := CatAt(ps.scraps, ps.pos + 4), CatAt(ps.scraps, ps.pos + 5);
    && !a.NoMatch?
    && (|| (Move(ps.pos, a.d) >= 1 && Exposes(a, c4, c5))
        || PassesOne(a.n, Before(ps, 1), c4, c5)
        || PassesTwo(a.n, Before(ps, 2), Before(ps, 1), v)
        || PassesThree(a.n, Before(ps, 3), Before(ps, 2), Before(ps, 1)))
  }

  // ---------- the categories after a step ----------

  predicate MatchesFrom(scraps: seq<Scrap>, i: nat) {
    Matches(CatAt(scraps, i), CatAt(scraps, i + 1), CatAt(scraps, i + 2), CatAt(scraps, i + 3))
  }

  lemma QuietIs(ps: State, i: nat, forceLines: bool)
    ensures Quiet(ps, i, forceLines) <==> !MatchesFrom(ps.scraps, i)
  {
    MatchesIs(ViewAt(ps.scraps, i, forceLines));
  }

  /** Scraps before the first one that `make_reserved` looks at keep their categories; others stay or become raw_int. */
  lemma BaseCats(a: Action, ps: State)
    requires Good(ps) && ps.pos < |ps.scraps| && a.Reduce? && Applicable(a, ps)
    requires a.reserve.Some? ==> a.at <= a.reserve.value
    ensures var b := BaseScraps(a, ps);
      && |b| == |ps.scraps|
      && (forall i :: 0 <= i < |b| ==>
            b[i].cat == ps.scraps[i].cat
              || (Reserving(a) && i >= ps.pos + a.at && ps.scraps[i].cat.Exp? && b[i].cat.RawInt?))
  {
    hide ReserveScraps;
    if a.reserve.Some? {
      ReservedCats(ps, ps.pos + a.reserve.value);
    }
  }

  lemma ReservedCats(ps: State, from: nat)
    requires Good(ps) && from < |ps.scraps|
    ensures var b := ReserveScraps(ps.scraps, ps.store, from);
      && |b| == |ps.scraps|
      && (forall i :: 0 <= i < |b| ==>
            b[i].cat == ps.scraps[i].cat || (i >= from && ps.scraps[i].cat.Exp? && b[i].cat.RawInt?))
  {
    hide FirstIdent, MarkScraps, MarkStore, Reservations.BeginsReserved, Reservations.MarkedStore;
    var loc := FirstIdent(ps.store, ps.scraps[from].trans);
    if loc.Some? {
      Reservations.MarksExactly(ps.scraps, ps.store, from, ps.store.toks[loc.value]);
    }
  }

  /** The category at `i` in the list before the action, or what `make_reserved` makes of it. */
  predicate Kept(x: Cat, a: Action, ps: State, i: nat) {
    x == CatAt(ps.scraps, i) || (Reserving(a) && i >= ps.pos + a.at && CatAt(ps.scraps, i).Exp? && x.RawInt?)
  }

  lemma PerformedCats(a: Action, ps: State, i: nat)
    requires Good(ps) && ps.pos < |ps.scraps| && Applicable(a, ps) && !a.NoMatch?
    requires Reserving(a) ==> a.at <= a.reserve.value
    ensures var x := CatAt(Perform(a, ps).scraps, i);
      if i < ps.pos + a.at then x == CatAt(ps.scraps, i)
      else if i == ps.pos + a.at then x == a.cat
      else Kept(x, a, ps, i + Size(a) - 1)
  {
    hide Good, ReducedStore, ReducedScrap, BaseScraps;
    if a.Reduce? {
      BaseCats(a, ps);
      ReducedCat(a, ps);
    }
  }

  lemma ReducedCat(a: Action, ps: State)
    requires Good(ps) && ps.pos < |ps.scraps| && a.Reduce? && Applicable(a, ps)
    ensures ReducedScrap(a, ps).cat == a.cat
  {
  }

  lemma ReservesWithin(ps: State, forceLines: bool)
    requires Good(ps) && ps.pos < |ps.scraps|
    ensures var a := ActionAt(ps, forceLines);
      && Applicable(a, ps) && (Reserving(a) ==> a.at <= a.reserve.value)
      && (!a.NoMatch? ==> a.at < 4 && Size(a) >= 1)
  {
    hide Production;
    ActionApplies(ps, forceLines);
  }

  /** The category at `i` after the step. */
  predicate Becomes(x: Cat, ps: State, forceLines: bool, i: nat) {
    var a := ActionAt(ps, forceLines);
    && !a.NoMatch?
    && (i < ps.pos ==> x == CatAt(ps.scraps, i))
    && (i >= ps.pos && i - ps.pos + Size(a) <= 6 ==>
          IsAfter(x, a, ViewAt(ps.scraps, ps.pos, forceLines),
                  CatAt(ps.scraps, ps.pos + 4), CatAt(ps.scraps, ps.pos + 5), i - ps.pos))
  }

  lemma CatsAfter(ps: State, forceLines: bool, i: nat)
    requires Good(ps) && ps.pos < |ps.scraps| && !ActionAt(ps, forceLines).NoMatch?
    ensures Becomes(CatAt(Step(ps, forceLines).scraps, i), ps, forceLines, i)
  {
    hide ActionAt, Good, Perform, Kept, CatAt, IsAfter, Size;
    var a := ActionAt(ps, forceLines);
    ReservesWithin(ps, forceLines);
    PerformedCats(a, ps, i);
    StepIs(ps, forceLines);
    if i > ps.pos + a.at && i - ps.pos + Size(a) <= 6 {
      KeptAfter(CatAt(Step(ps, forceLines).scraps, i), a, ps, forceLines, i);
    } else if i >= ps.pos && i <= ps.pos + a.at {
      NearAfter(CatAt(Step(ps, forceLines).scraps, i), a, ps, forceLines, i);
    }
  }

  lemma StepIs(ps: State, forceLines: bool)
    requires Good(ps) && ps.pos < |ps.scraps|
    ensures Applicable(ActionAt(ps, forceLines), ps) && Step(ps, forceLines) == Perform(ActionAt(ps, forceLines), ps)
  {
    ActionApplies(ps, forceLines);
    hide Production, Perform;
  }

  lemma KeptAfter(x: Cat, a: Action, ps: State, forceLines: bool, i: nat)
    requires !a.NoMatch? && i > ps.pos + a.at && i - ps.pos + Size(a) <= 6 && Size(a) >= 1
             && Kept(x, a, ps, i + Size(a) - 1)
    ensures IsAfter(x, a, ViewAt(ps.scraps, ps.pos, forceLines),
                    CatAt(ps.scraps, ps.pos + 4), CatAt(ps.scraps, ps.pos + 5), i - ps.pos)
  {
  }

  lemma NearAfter(x: Cat, a: Action, ps: State, forceLines: bool, i: nat)
    requires !a.NoMatch? && ps.pos <= i <= ps.pos + a.at && a.at < 4
    requires if i < ps.pos + a.at then x == CatAt(ps.scraps, i) else x == a.cat
    ensures IsAfter(x, a, ViewAt(ps.scraps, ps.pos, forceLines),
                    CatAt(ps.scraps, ps.pos + 4), CatAt(ps.scraps, ps.pos + 5), i - ps.pos)
  {
  }

  // ---------- one step ----------

  lemma MatchesHidden(ps: State, i: nat, forceLines: bool)
    ensures !Quiet(ps, i, forceLines) <==>
            Matches(CatAt(ps.scraps, i), CatAt(ps.scraps, i + 1), CatAt(ps.scraps, i + 2), CatAt(ps.scraps, i + 3))
  {
    hide Matches, Quiet;
    QuietIs(ps, i, forceLines);
  }

  /** Behind the first position there is no insert in sight, or the parser would have seen it before. */
  lemma NoInsertNear(ps: State, forceLines: bool)
    requires Clear(ps, forceLines) && 1 <= ps.pos < |ps.scraps| && Good(ps)
    ensures !CatAt(ps.scraps, ps.pos).Insert? && !CatAt(ps.scraps, ps.pos + 1).Insert?
            && !CatAt(ps.scraps, ps.pos + 2).Insert?
  {
    hide Quiet, Good;
    assert Quiet(ps, ps.pos - 1, forceLines);
    MatchesHidden(ps, ps.pos - 1, forceLines);
    var b, c, d := CatAt(ps.scraps, ps.pos), CatAt(ps.scraps, ps.pos + 1), CatAt(ps.scraps, ps.pos + 2);
    if b.Insert? || c.Insert? || d.Insert? {
      InsertsMatch(CatAt(ps.scraps, ps.pos - 1), b, c, d);
    }
  }

  lemma InsertsMatch(a: Cat, b: Cat, c: Cat, d: Cat)
    requires b.Insert? || c.Insert? || d.Insert?
    ensures Matches(a, b, c, d)
  {
    hide Pair, Triple, Quadruple, LhsNotSimple;
  }

  /** A production matches, none does at a position that the parser has passed, and there is such a position then or
      after the step. */
  predicate Acts(ps: State, forceLines: bool) {
    && Good(ps) && ps.pos < |ps.scraps| && Clear(ps, forceLines) && !ActionAt(ps, forceLines).NoMatch?
    && (ps.pos >= 1 || ActionAt(ps, forceLines).d >= 1)
  }

  /** A production that goes forward sees no insert. */
  lemma ForwardView(v: View)
    requires !Production(v).NoMatch? && Production(v).d >= 1
    ensures !v.c0.Insert? && !v.c1.Insert? && !v.c2.Insert?
  {
  }

  lemma TameHere(ps: State, forceLines: bool)
    requires Acts(ps, forceLines)
    ensures var v := ViewAt(ps.scraps, ps.pos, forceLines);
      && Tame(ActionAt(ps, forceLines), v) && !v.c0.Zero? && !v.c0.Insert? && !v.c1.Insert? && !v.c2.Insert?
  {
    hide Production, Tame, Clear;
    if ps.pos == 0 {
      ForwardView(ViewAt(ps.scraps, ps.pos, forceLines));
    } else {
      NoInsertNear(ps, forceLines);
    }
    ProductionTame(ViewAt(ps.scraps, ps.pos, forceLines));
    assert GoodScrap(ps.scraps[ps.pos], ps.store);
  }

  lemma QuietBefore(ps: State, forceLines: bool, i: nat)
    requires Clear(ps, forceLines) && i < ps.pos
    ensures !Matches(CatAt(ps.scraps, i), CatAt(ps.scraps, i + 1), CatAt(ps.scraps, i + 2), CatAt(ps.scraps, i + 3))
  {
    hide Quiet, Matches;
    assert Quiet(ps, i, forceLines);
    MatchesHidden(ps, i, forceLines);
  }

  /** The categories after the step that are seen from `pos - 1`, `pos - 2` and `pos - 3` are what they should be. */
  lemma NewCats(ps: State, forceLines: bool)
    requires Acts(ps, forceLines)
    ensures var a, v, later :=
            ActionAt(ps, forceLines), ViewAt(ps.scraps, ps.pos, forceLines), Step(ps, forceLines).scraps;
      var c4, c5 := CatAt(ps.scraps, ps.pos + 4), CatAt(ps.scraps, ps.pos + 5);
      && IsAfter(CatAt(later, ps.pos), a, v, c4, c5, 0)
      && IsAfter(CatAt(later, ps.pos + 1), a, v, c4, c5, 1)
      && IsAfter(CatAt(later, ps.pos + 2), a, v, c4, c5, 2)
      && (a.d == 1 ==> Size(a) <= 2 && IsAfter(CatAt(later, ps.pos + 3), a, v, c4, c5, 3))
  {
    hide ActionAt, Good, Clear, Step, IsAfter, CatAt;
    TameHere(ps, forceLines);
    TameSize(ActionAt(ps, forceLines), ViewAt(ps.scraps, ps.pos, forceLines));
    CatsAfter(ps, forceLines, ps.pos);
    CatsAfter(ps, forceLines, ps.pos + 1);
    CatsAfter(ps, forceLines, ps.pos + 2);
    CatsAfter(ps, forceLines, ps.pos + 3);
  }

  lemma TameSize(a: Action, v: View)
    requires !a.NoMatch? && Tame(a, v)
    ensures 1 <= Size(a) <= 4 && (a.d == 1 ==> Size(a) <= 2) && a.d <= 1
  {
    hide TameSecond, TameThird, TameFourth;
  }

  lemma SameBefore(ps: State, forceLines: bool, i: nat)
    requires Acts(ps, forceLines) && i < ps.pos
    ensures CatAt(Step(ps, forceLines).scraps, i) == CatAt(ps.scraps, i)
  {
    hide ActionAt, Good, Clear, Step, CatAt;
    CatsAfter(ps, forceLines, i);
  }

  /** An insert can be seen from before the new position. */
  predicate SeesInsert(ps: State, forceLines: bool)
    requires Acts(ps, forceLines)
  {
    var later := Step(ps, forceLines).scraps;
    Seen(ActionAt(ps, forceLines), CatAt(later, ps.pos), CatAt(later, ps.pos + 1), CatAt(later, ps.pos + 2),
         CatAt(later, ps.pos + 3))
  }

  lemma SeesInsertIs(ps: State, forceLines: bool)
    requires Acts(ps, forceLines)
    ensures SeesInsert(ps, forceLines) <==>
            Exposes(ActionAt(ps, forceLines), CatAt(ps.scraps, ps.pos + 4), CatAt(ps.scraps, ps.pos + 5))
  {
    hide ActionAt, Good, Clear, Step, IsAfter, CatAt, Exposes, Seen, Tame;
    TameHere(ps, forceLines);
    NewCats(ps, forceLines);
    var a, v, later := ActionAt(ps, forceLines), ViewAt(ps.scraps, ps.pos, forceLines), Step(ps, forceLines).scraps;
    TameSize(a, v);
    assert TameInsert(a, v) by { TameParts(a, v); }
    InsertsSeen(a, v, CatAt(ps.scraps, ps.pos + 4), CatAt(ps.scraps, ps.pos + 5),
                CatAt(later, ps.pos), CatAt(later, ps.pos + 1), CatAt(later, ps.pos + 2), CatAt(later, ps.pos + 3));
  }

  lemma TameParts(a: Action, v: View)
    requires !a.NoMatch? && Tame(a, v)
    ensures TameInsert(a, v)
  {
    hide TameInsert, TameSecond, TameLater, TameThird, TameFourth;
  }

  /** If an insert can be seen from before the new position, there is a match. */
  lemma InsertSeenMatches(ps: State, forceLines: bool)
    requires Acts(ps, forceLines) && SeesInsert(ps, forceLines) && Step(ps, forceLines).pos >= 1
    ensures !Quiet(Step(ps, forceLines), Step(ps, forceLines).pos - 1, forceLines)
  {
    hide ActionAt, Good, Clear, Step, CatAt, Quiet, Matches, Tame, IsAfter;
    var q := Step(ps, forceLines);
    MatchesHidden(q, q.pos - 1, forceLines);
    StepMoves(ps, forceLines);
    TameHere(ps, forceLines);
    if ActionAt(ps, forceLines).d == 1 {
      NewCats(ps, forceLines);
      ForwardFirst(ActionAt(ps, forceLines), ViewAt(ps.scraps, ps.pos, forceLines), CatAt(ps.scraps, ps.pos + 4),
                   CatAt(ps.scraps, ps.pos + 5), CatAt(q.scraps, ps.pos));
    }
    TameSize(ActionAt(ps, forceLines), ViewAt(ps.scraps, ps.pos, forceLines));
    var d := ActionAt(ps, forceLines).d;
    if d == -2 {
      assert ps.pos == q.pos + 2;
    } else if d == -1 {
      assert ps.pos == q.pos + 1;
    } else if d == 0 {
      assert ps.pos == q.pos;
    } else {
      assert ps.pos + 1 == q.pos && ps.pos + 2 == q.pos + 1 && ps.pos + 3 == q.pos + 2;
    }
    InsertsMatch(CatAt(q.scraps, q.pos - 1), CatAt(q.scraps, q.pos), CatAt(q.scraps, q.pos + 1),
                 CatAt(q.scraps, q.pos + 2));
  }

  lemma StepMoves(ps: State, forceLines: bool)
    requires Good(ps) && ps.pos < |ps.scraps|
    ensures var a := ActionAt(ps, forceLines);
      Step(ps, forceLines).pos == if a.NoMatch? then ps.pos + 1 else Move(ps.pos, a.d)
    ensures ActionAt(ps, forceLines).NoMatch? ==> Step(ps, forceLines).scraps == ps.scraps
  {
    hide ActionAt;
    StepIs(ps, forceLines);
  }

  /** Three positions before, and earlier, nothing changes that can be seen. */
  lemma QuietFar(ps: State, forceLines: bool, i: nat)
    requires Acts(ps, forceLines) && i + 3 < ps.pos
    ensures Quiet(Step(ps, forceLines), i, forceLines)
  {
    hide ActionAt, Good, Step, CatAt, Quiet, Matches, Clear;
    QuietBefore(ps, forceLines, i);
    MatchesHidden(Step(ps, forceLines), i, forceLines);
    SameBefore(ps, forceLines, i);
    SameBefore(ps, forceLines, i + 1);
    SameBefore(ps, forceLines, i + 2);
    SameBefore(ps, forceLines, i + 3);
  }

  lemma QuietOne(ps: State, forceLines: bool)
    requires Acts(ps, forceLines) && !SeesInsert(ps, forceLines) && ActionAt(ps, forceLines).d >= 0 && ps.pos >= 1
    ensures Quiet(Step(ps, forceLines), ps.pos - 1, forceLines) <==>
            !PassesOne(ActionAt(ps, forceLines).n, Before(ps, 1), CatAt(ps.scraps, ps.pos + 4),
                       CatAt(ps.scraps, ps.pos + 5))
  {
    hide ActionAt, Good, Clear, Step, IsAfter, CatAt, Tame, Quiet, Matches, PassesOne;
    TameHere(ps, forceLines);
    NewCats(ps, forceLines);
    QuietBefore(ps, forceLines, ps.pos - 1);
    SameBefore(ps, forceLines, ps.pos - 1);
    MatchesHidden(Step(ps, forceLines), ps.pos - 1, forceLines);
    var a, v, later := ActionAt(ps, forceLines), ViewAt(ps.scraps, ps.pos, forceLines), Step(ps, forceLines).scraps;
    MatchOne(Before(ps, 1), a, v, CatAt(ps.scraps, ps.pos + 4), CatAt(ps.scraps, ps.pos + 5),
             CatAt(later, ps.pos), CatAt(later, ps.pos + 1), CatAt(later, ps.pos + 2));
  }

  lemma QuietTwo(ps: State, forceLines: bool)
    requires Acts(ps, forceLines) && !SeesInsert(ps, forceLines) && ActionAt(ps, forceLines).d >= -1 && ps.pos >= 2
    ensures Quiet(Step(ps, forceLines), ps.pos - 2, forceLines) <==>
            !PassesTwo(ActionAt(ps, forceLines).n, Before(ps, 2), Before(ps, 1), ViewAt(ps.scraps, ps.pos, forceLines))
  {
    hide ActionAt, Good, Clear, Step, IsAfter, CatAt, Tame, Quiet, Matches, PassesTwo;
    TameHere(ps, forceLines);
    NewCats(ps, forceLines);
    QuietBefore(ps, forceLines, ps.pos - 1);
    QuietBefore(ps, forceLines, ps.pos - 2);
    SameBefore(ps, forceLines, ps.pos - 1);
    SameBefore(ps, forceLines, ps.pos - 2);
    MatchesHidden(Step(ps, forceLines), ps.pos - 2, forceLines);
    var a, v, later := ActionAt(ps, forceLines), ViewAt(ps.scraps, ps.pos, forceLines), Step(ps, forceLines).scraps;
    MatchTwo(Before(ps, 2), Before(ps, 1), a, v, CatAt(ps.scraps, ps.pos + 4), CatAt(ps.scraps, ps.pos + 5),
             CatAt(later, ps.pos), CatAt(later, ps.pos + 1));
  }

  lemma QuietThree(ps: State, forceLines: bool)
    requires Acts(ps, forceLines) && !SeesInsert(ps, forceLines) && ActionAt(ps, forceLines).d >= -2 && ps.pos >= 3
    ensures var n := ActionAt(ps, forceLines).n;
      && (!Quiet(Step(ps, forceLines), ps.pos - 3, forceLines) ==>
            || PassesThree(n, Before(ps, 3), Before(ps, 2), Before(ps, 1))
            || PassesTwo(n, Before(ps, 2), Before(ps, 1), ViewAt(ps.scraps, ps.pos, forceLines)))
      && (PassesThree(n, Before(ps, 3), Before(ps, 2), Before(ps, 1)) ==>
            !Quiet(Step(ps, forceLines), ps.pos - 3, forceLines))
  {
    hide ActionAt, Good, Clear, Step, IsAfter, CatAt, Tame, Quiet, Matches, PassesTwo, PassesThree;
    TameHere(ps, forceLines);
    NewCats(ps, forceLines);
    QuietBefore(ps, forceLines, ps.pos - 1);
    QuietBefore(ps, forceLines, ps.pos - 3);
    SameBefore(ps, forceLines, ps.pos - 1);
    SameBefore(ps, forceLines, ps.pos - 2);
    SameBefore(ps, forceLines, ps.pos - 3);
    MatchesHidden(Step(ps, forceLines), ps.pos - 3, forceLines);
    var a, v, later := ActionAt(ps, forceLines), ViewAt(ps.scraps, ps.pos, forceLines), Step(ps, forceLines).scraps;
    MatchThree(Before(ps, 3), Before(ps, 2), Before(ps, 1), a, v, CatAt(ps.scraps, ps.pos + 4),
               CatAt(ps.scraps, ps.pos + 5), CatAt(later, ps.pos));
  }

  lemma QuietHere(ps: State, forceLines: bool)
    requires Acts(ps, forceLines) && !SeesInsert(ps, forceLines) && ActionAt(ps, forceLines).d == 1
    ensures Quiet(Step(ps, forceLines), ps.pos, forceLines)
  {
    hide ActionAt, Good, Clear, Step, IsAfter, CatAt, Tame, Quiet, Matches;
    TameHere(ps, forceLines);
    NewCats(ps, forceLines);
    MatchesHidden(Step(ps, forceLines), ps.pos, forceLines);
    var a, v, later := ActionAt(ps, forceLines), ViewAt(ps.scraps, ps.pos, forceLines), Step(ps, forceLines).scraps;
    MatchHere(a, v, CatAt(ps.scraps, ps.pos + 4), CatAt(ps.scraps, ps.pos + 5),
              CatAt(later, ps.pos), CatAt(later, ps.pos + 1), CatAt(later, ps.pos + 2), CatAt(later, ps.pos + 3));
  }

  /** The production passes over a match, other than one for an insert. */
  predicate Passes(ps: State, forceLines: bool) {
    var a := ActionAt(ps, forceLines);
    && !a.NoMatch?
    && (|| PassesOne(a.n, Before(ps, 1), CatAt(ps.scraps, ps.pos + 4), CatAt(ps.scraps, ps.pos + 5))
        || PassesTwo(a.n, Before(ps, 2), Before(ps, 1), ViewAt(ps.scraps, ps.pos, forceLines))
        || PassesThree(a.n, Before(ps, 3), Before(ps, 2), Before(ps, 1)))
  }

  lemma PassesSeen(ps: State, forceLines: bool)
    requires Acts(ps, forceLines) && Passes(ps, forceLines)
    ensures Step(ps, forceLines).pos >= 1
  {
    hide ActionAt, Good, Step, CatAt, Clear, Tame, PassesOne, PassesTwo, PassesThree, Before;
    StepMoves(ps, forceLines);
    TameHere(ps, forceLines);
    PassesBack(ActionAt(ps, forceLines), ViewAt(ps.scraps, ps.pos, forceLines), Before(ps, 3), Before(ps, 2),
               Before(ps, 1),
               CatAt(ps.scraps, ps.pos + 4), CatAt(ps.scraps, ps.pos + 5));
  }

  lemma PassesClear(ps: State, forceLines: bool)
    requires Acts(ps, forceLines) && !SeesInsert(ps, forceLines)
    ensures Clear(Step(ps, forceLines), forceLines) <==> !Passes(ps, forceLines)
  {
    hide ActionAt, Good, Step, CatAt, Quiet, Tame, PassesOne, PassesTwo, PassesThree, Before, SeesInsert;
    var q, a := Step(ps, forceLines), ActionAt(ps, forceLines);
    StepMoves(ps, forceLines);
    TameHere(ps, forceLines);
    TameSize(a, ViewAt(ps.scraps, ps.pos, forceLines));
    PassesBack(a, ViewAt(ps.scraps, ps.pos, forceLines), Before(ps, 3), Before(ps, 2), Before(ps, 1),
               CatAt(ps.scraps, ps.pos + 4), CatAt(ps.scraps, ps.pos + 5));
    if a.d >= 0 && ps.pos >= 1 {
      QuietOne(ps, forceLines);
    }
    if a.d >= -1 && ps.pos >= 2 {
      QuietTwo(ps, forceLines);
    }
    if a.d >= -2 && ps.pos >= 3 {
      QuietThree(ps, forceLines);
    }
    if a.d == 1 {
      QuietHere(ps, forceLines);
    }
    forall i | 0 <= i < q.pos && !Passes(ps, forceLines)
      ensures Quiet(q, i, forceLines)
    {
      if i + 3 < ps.pos {
        QuietFar(ps, forceLines, i);
      } else {
        assert i == ps.pos - 3 || i == ps.pos - 2 || i == ps.pos - 1 || i == ps.pos;
      }
    }
  }

  lemma FirstStep(ps: State, forceLines: bool)
    requires Good(ps) && ps.pos == 0 < |ps.scraps| && !ActionAt(ps, forceLines).NoMatch?
             && ActionAt(ps, forceLines).d <= 0
    ensures Clear(Step(ps, forceLines), forceLines) && !Slips(ps, forceLines)
  {
    hide ActionAt, Good, Step, CatAt, Exposes, PassesOne, PassesTwo, PassesThree;
    var a := ActionAt(ps, forceLines);
    StepMoves(ps, forceLines);
    OnePassed(a.n, Before(ps, 1), CatAt(ps.scraps, ps.pos + 4), CatAt(ps.scraps, ps.pos + 5));
    TwoPassed(a.n, Before(ps, 2), Before(ps, 1), ViewAt(ps.scraps, ps.pos, forceLines));
    ThreePassed(a.n, Before(ps, 3), Before(ps, 2), Before(ps, 1));
  }

  /** Going back as the production says keeps all passed positions without a match, exactly if it is not one of the
      named exceptions. */
  lemma StepClearIff(ps: State, forceLines: bool)
    requires Good(ps) && ps.pos < |ps.scraps| && Clear(ps, forceLines)
    ensures Clear(Step(ps, forceLines), forceLines) <==> !Slips(ps, forceLines)
  {
    hide ActionAt, Good, Step, CatAt, Quiet, PassesOne, PassesTwo, PassesThree, Exposes, SeesInsert;
    var q, a := Step(ps, forceLines), ActionAt(ps, forceLines);
    StepMoves(ps, forceLines);
    if a.NoMatch? {
      StillClear(ps, forceLines);
    } else if ps.pos == 0 && a.d <= 0 {
      FirstStep(ps, forceLines);
    } else {
      SeesInsertIs(ps, forceLines);
      if SeesInsert(ps, forceLines) {
        if q.pos >= 1 {
          InsertSeenMatches(ps, forceLines);
        } else if Passes(ps, forceLines) {
          PassesSeen(ps, forceLines);
        }
      } else {
        PassesClear(ps, forceLines);
      }
    }
  }

  lemma StillClear(ps: State, forceLines: bool)
    requires Good(ps) && ps.pos < |ps.scraps| && Clear(ps, forceLines) && ActionAt(ps, forceLines).NoMatch?
    ensures Clear(Step(ps, forceLines), forceLines)
  {
    hide ActionAt, Good, Step;
    StepMoves(ps, forceLines);
    forall i | 0 <= i < ps.pos + 1
      ensures Quiet(Step(ps, forceLines), i, forceLines)
    {
      if i < ps.pos {
        assert Quiet(ps, i, forceLines);
      }
      SameView(ps, Step(ps, forceLines), i, forceLines);
    }
  }

  lemma SameView(p: State, q: State, i: nat, forceLines: bool)
    requires p.scraps == q.scraps
    ensures ActionAt(p.(pos := i), forceLines) == ActionAt(q.(pos := i), forceLines)
  {
    hide Production;
  }

  // ---------- whole runs ----------

  /** No step of the run from here slips. */
  predicate NeverSlips(ps: State, forceLines: bool)
    requires Good(ps)
    decreases |ps.scraps|, RankSum(ps.scraps), |ps.scraps| - ps.pos
  {
    if ps.pos >= |ps.scraps| then true
    else
      StepGood(ps, forceLines);
      StepShrinks(ps, forceLines);
      !Slips(ps, forceLines) && NeverSlips(Step(ps, forceLines), forceLines)
  }

  /** In all states of the run from here, no production matches at a passed position: where the parser acts, it acts
      at the leftmost match, and in the end there is no match left. */
  predicate ActsLeftmost(ps: State, forceLines: bool)
    requires Good(ps)
    decreases |ps.scraps|, RankSum(ps.scraps), |ps.scraps| - ps.pos
  {
    && Clear(ps, forceLines)
    && if ps.pos >= |ps.scraps| then true
       else
         StepGood(ps, forceLines);
         StepShrinks(ps, forceLines);
         ActsLeftmost(Step(ps, forceLines), forceLines)
  }

  lemma {:induction false} LeftmostIff(ps: State, forceLines: bool)
    requires Good(ps) && Clear(ps, forceLines)
    ensures ActsLeftmost(ps, forceLines) <==> NeverSlips(ps, forceLines)
    decreases |ps.scraps|, RankSum(ps.scraps), |ps.scraps| - ps.pos
  {
    hide Good, Clear, Step, Slips, RankSum;
    if ps.pos < |ps.scraps| {
      StepGood(ps, forceLines);
      StepShrinks(ps, forceLines);
      StepClearIff(ps, forceLines);
      if !Slips(ps, forceLines) {
        LeftmostIff(Step(ps, forceLines), forceLines);
      }
    }
  }

  /** A run without exceptions ends with a list in which no production matches anywhere. */
  lemma {:induction false} Irreducible(ps: State, forceLines: bool, i: nat)
    requires Good(ps) && ps.pos == 0 && NeverSlips(ps, forceLines) && i < |Parse(ps, forceLines).scraps|
    ensures Quiet(Parse(ps, forceLines), i, forceLines)
  {
    LeftmostIff(ps, forceLines);
    EndClear(ps, forceLines);
  }

  lemma {:induction false} EndClear(ps: State, forceLines: bool)
    requires Good(ps) && ActsLeftmost(ps, forceLines)
    ensures Clear(Parse(ps, forceLines), forceLines)
    decreases |ps.scraps|, RankSum(ps.scraps), |ps.scraps| - ps.pos
  {
    hide Good, Clear, Step, RankSum;
    if ps.pos < |ps.scraps| {
      StepGood(ps, forceLines);
      StepShrinks(ps, forceLines);
      EndClear(Step(ps, forceLines), forceLines);
    }
  }

  // ---------- the exceptions occur ----------

  /** The position, and the categories of the scraps. */
  predicate Shows(ps: State, pos: nat, cats: seq<Cat>) {
    Good(ps) && ps.pos == pos && |ps.scraps| == |cats| && forall i :: 0 <= i < |cats| ==> ps.scraps[i].cat == cats[i]
  }

  function Peek(cats: seq<Cat>, i: nat): Cat {
    if i < |cats| then cats[i] else Zero
  }

  function PeekView(cats: seq<Cat>, pos: nat, forceLines: bool): View {
    View(Peek(cats, pos), Peek(cats, pos + 1), Peek(cats, pos + 2), Peek(cats, pos + 3), forceLines)
  }

  lemma ParseStep(ps: State, forceLines: bool)
    requires Good(ps) && ps.pos < |ps.scraps|
    ensures Good(Step(ps, forceLines)) && Parse(ps, forceLines) == Parse(Step(ps, forceLines), forceLines)
  {
    hide Step, Good;
    StepGood(ps, forceLines);
    StepShrinks(ps, forceLines);
  }

  /** The categories after an action. */
  function Replaced(cats: seq<Cat>, from: nat, size: nat, cat: Cat): seq<Cat>
    requires from + size <= |cats|
  {
    cats[..from] + [cat] + cats[from + size..]
  }

  /** One step that does not call `make_reserved`. */
  lemma ShowsStep(ps: State, forceLines: bool, pos: nat, cats: seq<Cat>, pos': nat, cats': seq<Cat>)
    requires Shows(ps, pos, cats) && pos < |cats|
    requires var a := Production(PeekView(cats, pos, forceLines));
      if a.NoMatch? then pos' == pos + 1 && cats' == cats
      else !Reserving(a) && pos' == Move(pos, a.d) && pos + a.at + Size(a) <= |cats|
           && cats' == Replaced(cats, pos + a.at, Size(a), a.cat)
    ensures var q := Step(ps, forceLines);
      Shows(q, pos', cats') && Parse(ps, forceLines) == Parse(q, forceLines) && q.store.ilk == ps.store.ilk
  {
    hide Production, RankSum, Parse, Perform, Good, Applicable, GoodScrap;
    assert ActionAt(ps, forceLines) ==
           Production(PeekView(cats, pos, forceLines)) by { PeekIs(ps, forceLines, pos, cats); }
    ParseStep(ps, forceLines);
    StepIs(ps, forceLines);
    var a := ActionAt(ps, forceLines);
    if !a.NoMatch? {
      PerformShows(a, ps, cats);
    } else {
      PerformNothing(a, ps);
    }
  }

  lemma PeekIs(ps: State, forceLines: bool, pos: nat, cats: seq<Cat>)
    requires Shows(ps, pos, cats)
    ensures ActionAt(ps, forceLines) == Production(PeekView(cats, pos, forceLines))
  {
    hide Production, Good;
  }

  lemma PerformNothing(a: Action, ps: State)
    requires Good(ps) && ps.pos < |ps.scraps| && a.NoMatch?
    ensures Perform(a, ps) == ps.(pos := ps.pos + 1)
  {
    hide Good;
  }

  lemma PerformShows(a: Action, ps: State, cats: seq<Cat>)
    requires Good(ps) && ps.pos < |ps.scraps| && Applicable(a, ps) && !a.NoMatch? && !Reserving(a)
    requires |ps.scraps| == |cats| && forall i :: 0 <= i < |cats| ==> ps.scraps[i].cat == cats[i]
    requires ps.pos + a.at + Size(a) <= |cats|
    ensures var q, next := Perform(a, ps), Replaced(cats, ps.pos + a.at, Size(a), a.cat);
      && q.pos == Move(ps.pos, a.d) && q.store.ilk == ps.store.ilk
      && |q.scraps| == |next| && forall i :: 0 <= i < |next| ==> q.scraps[i].cat == next[i]
  {
    hide Good, ReducedScrap;
    if a.Reduce? {
      ReducedCat(a, ps);
    }
  }

  /** After two labels the parser has no place to go back to, and leaves two tags that match. */
  lemma TwoLabels(ps: State, forceLines: bool)
    requires Shows(ps, 0, [Exp, Colon, Exp, Colon])
    ensures Good(ps) && Shows(Parse(ps, forceLines), 2, [Tag, Tag]) && !Quiet(Parse(ps, forceLines), 0, forceLines)
  {
    hide Good, Parse, Step, Production;
    LabelViews(forceLines);
    var q1 := Step(ps, forceLines);
    ShowsStep(ps, forceLines, 0, [Exp, Colon, Exp, Colon], 0, [Tag, Exp, Colon]);
    var q2 := Step(q1, forceLines);
    ShowsStep(q1, forceLines, 0, [Tag, Exp, Colon], 1, [Tag, Exp, Colon]);
    var q3 := Step(q2, forceLines);
    ShowsStep(q2, forceLines, 1, [Tag, Exp, Colon], 1, [Tag, Tag]);
    var q4 := Step(q3, forceLines);
    ShowsStep(q3, forceLines, 1, [Tag, Tag], 2, [Tag, Tag]);
    ParseEnd(q4, forceLines);
  }

  lemma LabelViews(forceLines: bool)
    ensures Production(View(Exp, Colon, Exp, Colon, forceLines)) == Squash(0, 2, Tag, 0, 7)
    ensures Production(View(Tag, Exp, Colon, Zero, forceLines)).NoMatch?
    ensures Production(View(Exp, Colon, Zero, Zero, forceLines)) == Squash(0, 2, Tag, 0, 7)
    ensures Production(View(Tag, Zero, Zero, Zero, forceLines)).NoMatch?
    ensures !Production(View(Tag, Tag, Zero, Zero, forceLines)).NoMatch?
  {
  }

  /** In a declaration such as `typedef int f(int);` the parser sees that the name may be made a reserved word, which
      the parenthesis after it forbids, only when the parameters have become a cast; then it goes back no further than
      to the decl_head, and the name is never made reserved. */
  lemma FunctionTypedef(ps: State, forceLines: bool)
    requires Shows(ps, 0, [TypedefLike, DeclHead, Exp, Lpar, IntLike, Rpar, Semi])
    ensures Good(ps) && Shows(Parse(ps, forceLines), 1, [Decl]) && Parse(ps, forceLines).store.ilk == ps.store.ilk
    ensures Production(View(TypedefLike, DeclHead, Exp, Cast, forceLines))
            == Reduce(1, 2, DeclHead, 0, 42, Some(2), MaybeMath, Kid(1, Kid(2, End)))
  {
    hide Good, Parse, Step, Production, Squash;
    TypedefViews(forceLines);
    var cats := [TypedefLike, DeclHead, Exp, Lpar, IntLike, Rpar, Semi];
    var q1 := Step(ps, forceLines);
    ShowsStep(ps, forceLines, 0, cats, 1, cats);
    var q2 := Step(q1, forceLines);
    ShowsStep(q1, forceLines, 1, cats, 2, cats);
    var q3 := Step(q2, forceLines);
    ShowsStep(q2, forceLines, 2, cats, 3, cats);
    FromCast(q3, forceLines);
  }

  lemma FromCast(ps: State, forceLines: bool)
    requires Shows(ps, 3, [TypedefLike, DeclHead, Exp, Lpar, IntLike, Rpar, Semi])
    ensures Good(ps) && Shows(Parse(ps, forceLines), 1, [Decl]) && Parse(ps, forceLines).store.ilk == ps.store.ilk
  {
    hide Good, Parse, Step, Production, Squash;
    CastViews(forceLines);
    var q1 := Step(ps, forceLines);
    ShowsStep(ps, forceLines, 3, [TypedefLike, DeclHead, Exp, Lpar, IntLike, Rpar, Semi],
              1, [TypedefLike, DeclHead, Exp, Cast, Semi]);
    var q2 := Step(q1, forceLines);
    ShowsStep(q1, forceLines, 1, [TypedefLike, DeclHead, Exp, Cast, Semi], 0, [TypedefLike, DeclHead, Cast, Semi]);
    FromHead(q2, forceLines);
  }

  lemma FromHead(ps: State, forceLines: bool)
    requires Shows(ps, 0, [TypedefLike, DeclHead, Cast, Semi])
    ensures Good(ps) && Shows(Parse(ps, forceLines), 1, [Decl]) && Parse(ps, forceLines).store.ilk == ps.store.ilk
  {
    hide Good, Parse, Step, Production, Squash;
    HeadViews(forceLines);
    DeclViews(forceLines);
    var q3 := Step(ps, forceLines);
    ShowsStep(ps, forceLines, 0, [TypedefLike, DeclHead, Cast, Semi], 1, [TypedefLike, DeclHead, Cast, Semi]);
    var q4 := Step(q3, forceLines);
    ShowsStep(q3, forceLines, 1, [TypedefLike, DeclHead, Cast, Semi], 0, [TypedefLike, DeclHead, Semi]);
    var q5 := Step(q4, forceLines);
    ShowsStep(q4, forceLines, 0, [TypedefLike, DeclHead, Semi], 0, [Decl]);
    var q6 := Step(q5, forceLines);
    ShowsStep(q5, forceLines, 0, [Decl], 1, [Decl]);
    ParseEnd(q6, forceLines);
  }

  lemma TypedefViews(forceLines: bool)
    ensures Production(View(TypedefLike, DeclHead, Exp, Lpar, forceLines)).NoMatch?
    ensures Production(View(DeclHead, Exp, Lpar, IntLike, forceLines)).NoMatch?
    ensures Production(View(Exp, Lpar, IntLike, Rpar, forceLines)).NoMatch?
    ensures Production(View(TypedefLike, DeclHead, Exp, Cast, forceLines))
            == Reduce(1, 2, DeclHead, 0, 42, Some(2), MaybeMath, Kid(1, Kid(2, End)))
  {
  }

  lemma CastViews(forceLines: bool)
    ensures Production(View(Lpar, IntLike, Rpar, Semi, forceLines))
            == Reduce(0, 3, Cast, -2, 13, None, MaybeMath, Kid(0, Kid(1, Kid(2, End))))
    ensures Production(View(DeclHead, Exp, Cast, Semi, forceLines))
            == Reduce(0, 2, DeclHead, -1, 35, None, MaybeMath, Kid(0, Kid(1, End)))
  {
  }

  lemma HeadViews(forceLines: bool)
    ensures Production(View(TypedefLike, DeclHead, Cast, Semi, forceLines)).NoMatch?
    ensures Production(View(DeclHead, Cast, Semi, Zero, forceLines))
            == Reduce(0, 2, DeclHead, -1, 37, None, MaybeMath, Kid(0, Kid(1, End)))
  {
  }

  lemma DeclViews(forceLines: bool)
    ensures Production(View(TypedefLike, DeclHead, Semi, Zero, forceLines))
            == Reduce(0, 3, Decl, -1, 43, None, MaybeMath, Kid(0, Big(Blank, Kid(1, Kid(2, End)))))
    ensures Production(View(Decl, Zero, Zero, Zero, forceLines)).NoMatch?
  {
  }

  lemma ParseEnd(ps: State, forceLines: bool)
    requires Good(ps) && ps.pos >= |ps.scraps|
    ensures Parse(ps, forceLines) == ps
  {
    hide Good;
  }
}
