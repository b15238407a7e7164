/** `translate` of CWEAVE, working in place on the array of scraps. */
module Translators {
  import opened Scraps
  import opened Productions
  import opened Parsing
  import opened Translations

  /** What one step of a recipe appends, and what it does to the registers. */
  function OneToks(r: Recipe, window: seq<Scrap>, cur: Mathness): seq<Tok>
    requires !r.End? && InRange(r, |window|)
  {
    match r
    case Kid(i, _) => Toggle(cur, window[i].left) + [Text(window[i].trans)]
    case Big(s, _) => Toggle(cur, ModeOf(s)) + [Chr(s)]
    case Put(s, _) => [Chr(s)]
  }

  function OneRegs(r: Recipe, window: seq<Scrap>, regs: Regs): Regs
    requires !r.End? && InRange(r, |window|)
  {
    match r
    case Kid(i, _) => Meet(regs, window[i].left, window[i].right)
    case Big(s, _) => Meet(regs, ModeOf(s), ModeOf(s))
    case Put(_, _) => regs
  }

  lemma CookNext(r: Recipe, window: seq<Scrap>, regs: Regs, before: seq<Tok>)
    requires !r.End? && InRange(r, |window|)
    ensures CookRegs(r, window, regs) == CookRegs(r.rest, window, OneRegs(r, window, regs))
    ensures before + CookToks(r, window, regs.cur)
         == before + OneToks(r, window, regs.cur) + CookToks(r.rest, window, OneRegs(r, window, regs).cur)
  {
  }

  /** The read part and the unread part of an array of scraps. */
  function Both(a: seq<Scrap>, base: nat, lo: nat, hi: nat, last: nat): seq<Scrap>
    requires base <= lo + 1 <= hi <= last + 1 <= |a|
  {
    a[base..lo + 1] + a[hi..last + 1]
  }

  /** One turn of the loop of `make_reserved`, at position `i`: the scraps, and the store. */
  function MarkAt(scraps: seq<Scrap>, st: Store, i: nat, v: Tok): seq<Scrap>
    requires AllAnchored(scraps, st) && i < |scraps|
  {
    if Marks(scraps[i], st, v) then scraps[i := MarkScrap(scraps[i])] else scraps
  }

  function MarkStoreAt(scraps: seq<Scrap>, st: Store, i: nat, v: Tok): Store
    requires AllAnchored(scraps, st) && i < |scraps| && IsIdent(v)
  {
    if Marks(scraps[i], st, v) then MarkTok(scraps[i], st, v) else st
  }

  lemma MarkNext(list: seq<Scrap>, st: Store, i: nat, v: Tok)
    requires AllAnchored(list, st) && IsIdent(v) && i < |list|
    ensures AllAnchored(MarkAt(list, st, i, v), MarkStoreAt(list, st, i, v))
    ensures MarkScraps(list, st, i, v) == MarkScraps(MarkAt(list, st, i, v), MarkStoreAt(list, st, i, v), i + 1, v)
    ensures MarkStore(list, st, i, v) == MarkStore(MarkAt(list, st, i, v), MarkStoreAt(list, st, i, v), i + 1, v)
  {
  }

  lemma MarkDone(list: seq<Scrap>, st: Store, i: nat, v: Tok)
    requires AllAnchored(list, st) && IsIdent(v) && i >= |list|
    ensures MarkScraps(list, st, i, v) == list && MarkStore(list, st, i, v) == st
  {
  }

  /** The globals of the scrap parser. Positions `scrapBase..loPtr` hold what has been read, `hiPtr..scrapPtr` what is
      still to be read; between them is garbage, or padding of category zero. */
  class Translator {
    const scrapInfo: array<Scrap>
    const forceLines: bool
    var scrapBase: nat
    var scrapPtr: nat
    var pp: nat
    var loPtr: nat
    var hiPtr: nat
    var tokMem: seq<Tok>
    var tokStart: seq<nat>
    var ilk: map<nat, Cat>
    var initMathness: Mathness
    var curMathness: Mathness

    constructor (scrapInfo: array<Scrap>, base: nat, last: nat, store: Store, forceLines: bool)
      requires 1 <= base <= last + 1 && last + 4 < scrapInfo.Length
      ensures this.scrapInfo == scrapInfo && this.forceLines == forceLines
      ensures Valid() && scrapBase == base && scrapPtr == last && Mem() == store
      ensures scrapInfo[..] == old(scrapInfo[..])
    {
      this.scrapInfo := scrapInfo;
      this.forceLines := forceLines;
      scrapBase, scrapPtr := base, last;
      pp, loPtr, hiPtr := base, base - 1, base;
      tokMem, tokStart, ilk := store.toks, store.starts, store.ilk;
      initMathness, curMathness := MaybeMath, MaybeMath;
    }

    ghost predicate Valid()
      reads this
    {
      && 1 <= scrapBase <= loPtr + 1 <= hiPtr <= scrapPtr + 1
      && scrapBase <= pp <= loPtr + 1
      && scrapPtr + 4 < scrapInfo.Length
    }

    function Mem(): Store
      reads this
    {
      Store(tokMem, tokStart, ilk)
    }

    /** The list of scraps that the array stands for. */
    ghost function List(): seq<Scrap>
      requires Valid()
      reads this, scrapInfo
    {
      Both(scrapInfo[..], scrapBase, loPtr, hiPtr, scrapPtr)
    }

    /** The state of the parser. */
    ghost function Abs(): State
      requires Valid()
      reads this, scrapInfo
    {
      State(List(), pp - scrapBase, Mem())
    }

    method AppTok(t: Tok)
      modifies this`tokMem
      ensures tokMem == old(tokMem) + [t]
    {
      tokMem := tokMem + [t];
    }

    /** The part that `big_app` and `big_app1` have in common: get from `cur_mathness` to a definite mode. */
    method Switch(m: Mathness)
      requires !m.MaybeMath?
      modifies this`tokMem, this`initMathness
      ensures tokMem == old(tokMem) + Toggle(curMathness, m)
      ensures initMathness == if curMathness.MaybeMath? then m else old(initMathness)
    {
      if curMathness.MaybeMath? {
        initMathness := m;
      } else if curMathness.YesMath? && m.NoMath? {
        AppTok(Chr(BraceL));
        AppTok(Chr(BraceR));
        AppTok(Chr(Dollar));
      } else if curMathness.NoMath? && m.YesMath? {
        AppTok(Chr(Dollar));
        AppTok(Chr(BraceL));
        AppTok(Chr(BraceR));
      }
    }

    method BigApp(s: Sym)
      modifies this`tokMem, this`initMathness, this`curMathness
      ensures tokMem == old(tokMem) + (Toggle(old(curMathness), ModeOf(s)) + [Chr(s)])
      ensures Regs(initMathness, curMathness) == Meet(old(Regs(initMathness, curMathness)), ModeOf(s), ModeOf(s))
    {
      Switch(ModeOf(s));
      curMathness := ModeOf(s);
      AppTok(Chr(s));
    }

    method BigApp1(a: nat)
      requires a < scrapInfo.Length
      modifies this`tokMem, this`initMathness, this`curMathness
      ensures var s := scrapInfo[a];
        && tokMem == old(tokMem) + (Toggle(old(curMathness), s.left) + [Text(s.trans)])
        && Regs(initMathness, curMathness) == Meet(old(Regs(initMathness, curMathness)), s.left, s.right)
    {
      var s := scrapInfo[a];
      if !s.left.MaybeMath? {
        Switch(s.left);
        curMathness := s.right;
      }
      AppTok(Text(s.trans));
    }

    /** One step of a recipe. */
    method BuildOne(r: Recipe, ghost window: seq<Scrap>)
      requires !r.End? && InRange(r, |window|) && pp + |window| <= scrapInfo.Length
      requires forall i :: 0 <= i < |window| ==> window[i] == scrapInfo[pp + i]
      modifies this`tokMem, this`initMathness, this`curMathness
      ensures tokMem == old(tokMem) + OneToks(r, window, old(curMathness))
      ensures Regs(initMathness, curMathness) == OneRegs(r, window, old(Regs(initMathness, curMathness)))
    {
      match r {
        case Kid(i, _) => BigApp1(pp + i);
        case Big(s, _) => BigApp(s);
        case Put(s, _) => AppTok(Chr(s));
      }
    }

    /** Build the translation that a recipe describes. */
    method Build(recipe: Recipe, ghost window: seq<Scrap>)
      requires InRange(recipe, |window|) && pp + |window| <= scrapInfo.Length
      requires forall i :: 0 <= i < |window| ==> window[i] == scrapInfo[pp + i]
      modifies this`tokMem, this`initMathness, this`curMathness
      ensures tokMem == old(tokMem) + CookToks(recipe, window, old(curMathness))
      ensures Regs(initMathness, curMathness) == CookRegs(recipe, window, old(Regs(initMathness, curMathness)))
    {
      var r := recipe;
      while !r.End?
        invariant InRange(r, |window|)
        invariant tokMem + CookToks(r, window, curMathness)
               == old(tokMem) + CookToks(recipe, window, old(curMathness))
        invariant CookRegs(recipe, window, old(Regs(initMathness, curMathness)))
               == CookRegs(r, window, Regs(initMathness, curMathness))
        decreases r
      {
        CookNext(r, window, Regs(initMathness, curMathness), tokMem);
        BuildOne(r, window);
        r := r.rest;
      }
    }

    /** The loop of `reduce`: move the scraps after position `j+k-1` down to position `j+1`. */
    method ShiftDown(j: nat, k: nat)
      requires 1 <= k && j + k <= loPtr + 1 <= scrapInfo.Length
      modifies scrapInfo
      ensures Shifted(old(scrapInfo[..]), scrapInfo[..], j, k, loPtr - k + 2)
    {
      var i, i1 := j + k, j + 1;
      while i <= loPtr
        invariant i1 == i - k + 1 && j + k <= i <= loPtr + 1
        invariant Shifted(old(scrapInfo[..]), scrapInfo[..], j, k, i1)
      {
        scrapInfo[i1] := scrapInfo[i];
        i, i1 := i + 1, i1 + 1;
      }
    }

    /** Put `s` in the place of the `k` scraps from `j` on. */
    method Contract(j: nat, k: nat, s: Scrap)
      requires Valid() && pp <= j && 1 <= k && j + k <= loPtr + 1
      modifies this`loPtr, scrapInfo
      ensures Valid() && loPtr == old(loPtr) - k + 1
      ensures List() == Splice(old(List()), j - scrapBase, k, s)
    {
      hide Shifted, Splice;
      ghost var was := scrapInfo[..];
      ghost var lo := loPtr;
      scrapInfo[j] := s;
      ghost var mid := scrapInfo[..];
      assert mid == was[j := s];
      if k > 1 {
        ShiftDown(j, k);
        loPtr := loPtr - k + 1;
      }
      ghost var now := scrapInfo[..];
      assert Shifted(mid, now, j, k, lo - k + 2) by {
        if k == 1 { ShiftedOne(mid, j, lo + 1); }
      }
      Reduced(was, now, scrapBase, j, k, lo, hiPtr, scrapPtr, s);
    }

    /** Replace the `k` scraps from `j` on by one scrap of category `c` with the translation just built, and move `pp`
        by `d`. (`reduce` also decrements `pp` at its end, which cancels the increment that its caller does next.) */
    method Reduce(j: nat, k: nat, c: Cat, d: int)
      requires Valid() && pp <= j && 1 <= k && j + k <= loPtr + 1 && d <= 1
      requires |tokStart| > 0
      modifies this`tokStart, this`loPtr, this`pp, scrapInfo
      ensures Valid()
      ensures List() == Splice(old(List()), j - scrapBase, k, Scrap(c, initMathness, curMathness, |old(tokStart)| - 1))
      ensures pp - scrapBase == Move(old(pp) - scrapBase, d) && tokStart == old(tokStart) + [|tokMem|]
    {
      Contract(j, k, Scrap(c, initMathness, curMathness, |tokStart| - 1));
      tokStart := tokStart + [|tokMem|];
      pp := if pp + d >= scrapBase then pp + d else scrapBase;
    }

    /** `squash` with `k == 1`: only the category changes. */
    method Relabel(j: nat, c: Cat, d: int)
      requires Valid() && pp <= j <= loPtr && d <= 1
      modifies this`pp, scrapInfo
      ensures Valid()
      ensures List() == old(List())[j - scrapBase := old(List())[j - scrapBase].(cat := c)]
      ensures pp - scrapBase == Move(old(pp) - scrapBase, d)
    {
      scrapInfo[j] := scrapInfo[j].(cat := c);
      pp := if pp + d >= scrapBase then pp + d else scrapBase;
    }

    /** Copy the next unread scrap to the end of the read part. */
    method ReadScrap()
      requires Valid() && hiPtr <= scrapPtr
      modifies this`loPtr, this`hiPtr, scrapInfo
      ensures Valid() && List() == old(List())
      ensures loPtr == old(loPtr) + 1 && hiPtr == old(hiPtr) + 1
    {
      ghost var was := scrapInfo[..];
      loPtr := loPtr + 1;
      scrapInfo[loPtr] := scrapInfo[hiPtr];
      hiPtr := hiPtr + 1;
      ghost var now := scrapInfo[..];
      assert now == was[loPtr := was[hiPtr - 1]];
      assert now[scrapBase..loPtr + 1] == was[scrapBase..loPtr] + [was[hiPtr - 1]];
      assert now[hiPtr..scrapPtr + 1] == was[hiPtr..scrapPtr + 1];
    }

    /** Store padding in the entries after the last scrap, up to `pp+3`. */
    method Pad()
      requires Valid() && (loPtr >= pp + 3 || hiPtr > scrapPtr)
      modifies scrapInfo
      ensures List() == old(List())
      ensures forall i :: loPtr < i <= pp + 3 ==> scrapInfo[i].cat.Zero?
    {
      var i := loPtr + 1;
      while i <= pp + 3
        invariant loPtr + 1 <= i && (i <= pp + 4 || i == loPtr + 1)
        invariant forall x :: 0 <= x <= loPtr ==> scrapInfo[x] == old(scrapInfo[x])
        invariant loPtr >= pp + 3 ==> scrapInfo[..] == old(scrapInfo[..])
        invariant forall x :: loPtr < x < i ==> scrapInfo[x].cat.Zero?
      {
        scrapInfo[i] := scrapInfo[i].(cat := Zero);
        i := i + 1;
      }
      assert scrapInfo[..][scrapBase..loPtr + 1] == old(scrapInfo[..][scrapBase..loPtr + 1]);
      assert scrapInfo[..][hiPtr..scrapPtr + 1] == old(scrapInfo[..][hiPtr..scrapPtr + 1]);
    }

    /** Make sure the entries `pp` through `pp+3` are defined: read more scraps, and store padding past the last one. */
    method FillWindow()
      requires Valid()
      modifies this`loPtr, this`hiPtr, scrapInfo
      ensures Valid() && List() == old(List())
      ensures loPtr >= pp + 3 || hiPtr > scrapPtr
      ensures forall i :: loPtr < i <= pp + 3 ==> scrapInfo[i].cat.Zero?
    {
      if loPtr < pp + 3 {
        while hiPtr <= scrapPtr && loPtr != pp + 3
          invariant Valid() && List() == old(List()) && loPtr <= pp + 3
          decreases scrapPtr + 1 - hiPtr
        {
          ReadScrap();
        }
        Pad();
      }
    }

    /** The place of the first identifier in text `t`. */
    method FindFirstIdent(t: nat) returns (loc: Option<nat>)
      requires Mem().Ok() && t < Mem().Texts()
      ensures loc == FirstIdent(Mem(), t)
      decreases t
    {
      var j := tokStart[t];
      while j < tokStart[t + 1]
        invariant tokStart[t] <= j <= tokStart[t + 1]
        invariant FindFrom(Mem(), t, j) == FirstIdent(Mem(), t)
      {
        var t' := tokMem[j];
        if t'.Id? || t'.Res? {
          return Some(j);
        } else if t'.Text? || t'.Inner? {
          var q := FindFirstIdent(t'.text);
          if q.Some? {
            return q;
          }
        } else if t' == Chr(Inserted) {
          return None;
        }
        j := j + 1;
      }
      return None;
    }

    /** The position in the list of the scrap at index `q` of the array. */
    function Position(q: nat): nat
      requires Valid() && scrapBase <= q && (q <= loPtr || hiPtr <= q)
      reads this
    {
      if q <= loPtr then q - scrapBase else loPtr + 1 - scrapBase + (q - hiPtr)
    }

    /** One turn of the loop of `make_reserved`. */
    method MarkOne(q: nat, v: Tok)
      requires Valid() && AllAnchored(List(), Mem()) && IsIdent(v)
      requires scrapBase <= q <= scrapPtr && (q <= loPtr || hiPtr <= q)
      modifies this`tokMem, scrapInfo
      ensures Position(q) < |old(List())|
      ensures List() == MarkAt(old(List()), old(Mem()), Position(q), v)
      ensures Mem() == MarkStoreAt(old(List()), old(Mem()), Position(q), v)
    {
      var s := scrapInfo[q];
      assert List()[Position(q)] == s && Anchored(s, Mem());
      if s.cat.Exp? && tokMem[tokStart[s.trans]] == v {
        ghost var was := scrapInfo[..];
        scrapInfo[q] := s.(cat := RawInt);
        tokMem := tokMem[tokStart[s.trans] := Res(v.name)];
        assert scrapInfo[..] == was[q := MarkScrap(s)];
        BothUpdate(was, scrapBase, loPtr, hiPtr, scrapPtr, q, Position(q), MarkScrap(s));
      }
    }

    /** The loop of `make_reserved`. */
    method MarkAll(p: nat, v: Tok)
      requires Valid() && AllAnchored(List(), Mem()) && IsIdent(v) && scrapBase <= p <= loPtr
      modifies this`tokMem, scrapInfo
      ensures List() == MarkScraps(old(List()), old(Mem()), p - scrapBase, v)
      ensures Mem() == MarkStore(old(List()), old(Mem()), p - scrapBase, v)
    {
      hide MarkScraps, MarkStore, MarkAt, MarkStoreAt;
      ghost var list, mem := List(), Mem();
      ghost var list', mem' := MarkScraps(list, mem, p - scrapBase, v), MarkStore(list, mem, p - scrapBase, v);
      var q := p;
      ghost var i := p - scrapBase;
      while q <= scrapPtr
        invariant p <= q <= scrapPtr + 1 && (q <= loPtr || hiPtr <= q) && i == Position(q)
        invariant List() == list && Mem() == mem && AllAnchored(list, mem)
        invariant MarkScraps(list, mem, i, v) == list' && MarkStore(list, mem, i, v) == mem'
        decreases scrapPtr + 1 - q
      {
        MarkOne(q, v);
        MarkNext(list, mem, i, v);
        list, mem, i := MarkAt(list, mem, i, v), MarkStoreAt(list, mem, i, v), i + 1;
        q := if q == loPtr then hiPtr else q + 1;
      }
      MarkDone(list, mem, i, v);
    }

    /** Make the first identifier in the text of scrap `p` like `int`, and mark its occurrences among the scraps from
        `p` on. */
    method MakeReserved(p: nat)
      requires Valid() && Mem().Ok() && AllAnchored(List(), Mem()) && scrapBase <= p <= loPtr
      modifies this`tokMem, this`ilk, scrapInfo
      ensures List() == ReserveScraps(old(List()), old(Mem()), p - scrapBase)
      ensures Mem() == ReserveStore(old(List()), old(Mem()), p - scrapBase)
    {
      assert List()[p - scrapBase] == scrapInfo[p] && Anchored(List()[p - scrapBase], Mem());
      var loc := FindFirstIdent(scrapInfo[p].trans);
      if loc.Some? {
        var v := tokMem[loc.value];
        MarkAll(p, v);
        tokMem := tokMem[loc.value := Res(v.name)];
        ilk := ilk[v.name := RawInt];
      }
    }

    /** What the four entries from `pp` on show. */
    ghost predicate Filled()
      requires Valid()
      reads this, scrapInfo
    {
      && (loPtr >= pp + 3 || hiPtr > scrapPtr)
      && forall i :: loPtr < i <= pp + 3 ==> scrapInfo[i].cat.Zero?
    }

    lemma FilledView()
      requires Valid() && Filled()
      ensures View(scrapInfo[pp].cat, scrapInfo[pp + 1].cat, scrapInfo[pp + 2].cat, scrapInfo[pp + 3].cat, forceLines)
           == ViewAt(List(), pp - scrapBase, forceLines)
    {
    }

    /** The scraps read are at the front of the list, and among them are all that a production can consume. */
    lemma ReadList(n: nat)
      requires Valid() && Filled() && pp <= loPtr && n <= 4 && pp - scrapBase + n <= |List()|
      ensures pp + n <= loPtr + 1
      ensures scrapInfo[pp..loPtr + 1] <= List()[pp - scrapBase..]
    {
      assert scrapInfo[..][scrapBase..loPtr + 1][pp - scrapBase..] == scrapInfo[pp..loPtr + 1];
    }

    /** `make_reserved` if the production asks for it. */
    method ReserveFor(a: Action)
      requires Valid() && Good(Abs()) && pp <= loPtr && a.Reduce? && Applicable(a, Abs())
      requires a.reserve.Some? ==> pp + a.reserve.value <= loPtr
      modifies this`tokMem, this`ilk, scrapInfo
      ensures List() == BaseScraps(a, old(Abs())) && Mem() == BaseStore(a, old(Abs()))
    {
      GoodAnchored(Abs());
      if a.reserve.Some? {
        MakeReserved(pp + a.reserve.value);
      }
    }

    /** Build the translation that a production asks for, after `make_reserved`. */
    method BuildFor(a: Action, ghost ps: State)
      requires Valid() && pp <= loPtr && Good(ps) && ps.pos == pp - scrapBase < |ps.scraps|
      requires a.Reduce? && Applicable(a, ps) && WithinFour(a) && pp + a.at + a.k <= loPtr + 1
      requires List() == BaseScraps(a, ps) && ScrapsSameButReserved(ps.scraps, BaseScraps(a, ps))
      modifies this`tokMem, this`initMathness, this`curMathness
      ensures tokMem == old(tokMem) + CookToks(a.recipe, ps.scraps[ps.pos..], a.start)
      ensures Regs(initMathness, curMathness) == CookRegs(a.recipe, ps.scraps[ps.pos..], Regs(a.start, a.start))
    {
      ghost var window := scrapInfo[pp..loPtr + 1];
      assert scrapInfo[..][scrapBase..loPtr + 1][pp - scrapBase..] == window;
      assert window <= List()[pp - scrapBase..];
      KidsWithinInRange(a.recipe, a.at, a.k, |window|);
      initMathness, curMathness := a.start, a.start;
      Build(a.recipe, window);
      WindowSame(a, ps, window);
    }

    /** A production that makes a new translation. */
    method ApplyReduce(a: Action)
      requires Valid() && Filled() && pp <= loPtr && Good(Abs())
      requires a.Reduce? && Applicable(a, Abs()) && a.d <= 1 && WithinFour(a)
      modifies this`tokMem, this`ilk, this`initMathness, this`curMathness, this`tokStart, this`loPtr, this`pp, scrapInfo
      ensures Valid() && Abs() == Perform(a, old(Abs()))
    {
      hide BaseScraps, BaseStore, Perform, CookToks, CookRegs, Splice;
      ghost var ps := Abs();
      ReadList(a.at + a.k);
      BaseSame(a, ps);
      ReserveFor(a);
      BuildFor(a, ps);
      PerformReduce(a, ps, Mem(), Regs(initMathness, curMathness));
      ReduceTo(a, Perform(a, ps));
    }

    method ReduceTo(a: Action, ghost target: State)
      requires Valid() && a.Reduce? && 1 <= a.k && pp + a.at + a.k <= loPtr + 1 && a.d <= 1 && |tokStart| > 0
      requires target ==
               State(Splice(List(), pp - scrapBase
                            + a.at, a.k, Scrap(a.cat, initMathness, curMathness, |tokStart| - 1)),
                     Move(pp - scrapBase, a.d), Mem().Freeze())
      modifies this`tokStart, this`loPtr, this`pp, scrapInfo
      ensures Valid() && Abs() == target
    {
      Reduce(pp + a.at, a.k, a.cat, a.d);
    }

    /** A production that only changes a category. */
    method ApplyRelabel(a: Action)
      requires Valid() && Filled() && pp <= loPtr && Good(Abs())
      requires a.Relabel? && Applicable(a, Abs()) && a.d <= 1 && WithinFour(a)
      modifies this`pp, scrapInfo
      ensures Valid() && Abs() == Perform(a, old(Abs()))
    {
      hide Good;
      ReadList(a.at + 1);
      Relabel(pp + a.at, a.cat, a.d);
    }

    /** Apply a production, or move on when there is none. */
    method ApplyProduction(a: Action)
      requires Valid() && Filled() && pp <= loPtr && Good(Abs()) && Applicable(a, Abs())
      requires a.NoMatch? || (a.d <= 1 && WithinFour(a))
      modifies this`tokMem, this`ilk, this`initMathness, this`curMathness, this`tokStart, this`loPtr, this`pp, scrapInfo
      ensures Valid() && Abs() == Perform(a, old(Abs()))
    {
      hide Good, Splice, WithinFour, Applicable;
      match a
      case NoMatch =>
        pp := pp + 1;
      case Relabel(_, _, _, _) =>
        ApplyRelabel(a);
      case Reduce(_, _, _, _, _, _, _, _) =>
        ApplyReduce(a);
    }

    /** One turn of the parsing loop, once the four entries from `pp` on are defined. */
    method ParseStep()
      requires Valid() && Filled() && pp <= loPtr && Good(Abs())
      modifies this`tokMem, this`ilk, this`initMathness, this`curMathness, this`tokStart, this`loPtr, this`pp, scrapInfo
      ensures Valid() && Abs() == Step(old(Abs()), forceLines)
    {
      hide Production, Perform, Applicable, WithinFour, ViewAt;
      var v := View(scrapInfo[pp].cat, scrapInfo[pp + 1].cat, scrapInfo[pp + 2].cat, scrapInfo[pp + 3].cat, forceLines);
      FilledView();
      ReadList(1);
      StepWithinFour(Abs(), forceLines);
      ApplyProduction(Production(v));
    }

    /** Reduce the scraps using the productions until no more rules apply. */
    method ParseAll()
      requires Valid() && Good(Abs())
      modifies this, scrapInfo
      ensures Valid() && scrapBase == old(scrapBase) && scrapPtr == old(scrapPtr)
      ensures Abs() == Parse(old(Abs()), forceLines) && hiPtr > scrapPtr
    {
      hide Step, Good, Smaller;
      ghost var base, last := scrapBase, scrapPtr;
      while true
        invariant Valid() && Good(Abs()) && scrapBase == base && scrapPtr == last
        invariant Parse(Abs(), forceLines) == Parse(old(Abs()), forceLines)
        decreases |List()|, RankSum(List()), |List()| - (pp - scrapBase)
      {
        FillWindow();
        if pp > loPtr {
          return;
        }
        ghost var ps := Abs();
        assert ps.pos < |ps.scraps|;
        StepGood(ps, forceLines);
        StepShrinks(ps, forceLines);
        ParseStep();
      }
    }

    /** Append the translation of the scrap at `j`, with dollar signs where its boundaries are in math mode. */
    method AppendScrap(j: nat)
      requires scrapBase <= j < scrapInfo.Length
      modifies this`tokMem
      ensures var s := scrapInfo[j];
        tokMem == old(tokMem) + (OptTok(j != scrapBase, Blank) + OptTok(s.left.YesMath?, Dollar) + [Text(s.trans)]
                                 + OptTok(s.right.YesMath?, Dollar))
    {
      if j != scrapBase {
        AppTok(Chr(Blank));
      }
      if scrapInfo[j].left.YesMath? {
        AppTok(Chr(Dollar));
      }
      AppTok(Text(scrapInfo[j].trans));
      if scrapInfo[j].right.YesMath? {
        AppTok(Chr(Dollar));
      }
    }

    /** Combine the irreducible scraps that remain. */
    method Combine()
      requires Valid() && hiPtr > scrapPtr && |tokStart| > 0
      modifies this`tokMem, this`tokStart
      ensures tokMem == old(tokMem) + JoinToks(List(), 0) && tokStart == old(tokStart) + [|tokMem|]
    {
      ghost var scraps := List();
      var j := scrapBase;
      while j <= loPtr
        modifies this`tokMem
        invariant scrapBase <= j <= loPtr + 1
        invariant tokMem + JoinToks(scraps, j - scrapBase) == old(tokMem) + JoinToks(scraps, 0)
      {
        assert scrapInfo[j] == scraps[j - scrapBase];
        ghost var toks := tokMem;
        AppendScrap(j);
        JoinNext(scraps, j - scrapBase, toks);
        j := j + 1;
      }
      tokStart := tokStart + [|tokMem|];
    }

    /** Translate the scraps between `scrapBase` and `scrapPtr`; the result is the number of their translation. */
    method Translate() returns (text: nat)
      requires 1 <= scrapBase <= scrapPtr + 1 && scrapPtr + 4 < scrapInfo.Length
      requires Good(State(scrapInfo[scrapBase..scrapPtr + 1], 0, Mem()))
      modifies this, scrapInfo
      ensures Mem() == Translated(old(scrapInfo[scrapBase..scrapPtr + 1]), old(Mem()), forceLines)
      ensures text == |tokStart| - 2
    {
      hide JoinToks, Parse;
      ghost var input, mem := scrapInfo[scrapBase..scrapPtr + 1], Mem();
      pp, loPtr, hiPtr := scrapBase, scrapBase - 1, scrapBase;
      assert List() == input;
      ParseAll();
      Combine();
      text := |tokStart| - 2;
    }
  }

  lemma JoinNext(scraps: seq<Scrap>, i: nat, before: seq<Tok>)
    requires i < |scraps|
    ensures before + JoinToks(scraps, i)
         == before + (OptTok(i != 0, Blank) + OptTok(scraps[i].left.YesMath?, Dollar) + [Text(scraps[i].trans)]
                      + OptTok(scraps[i].right.YesMath?, Dollar)) + JoinToks(scraps, i + 1)
  {
  }

  lemma StepWithinFour(ps: State, forceLines: bool)
    requires Good(ps) && ps.pos < |ps.scraps|
    ensures var a := ActionAt(ps, forceLines); Applicable(a, ps) && WithinFour(a) && (a.NoMatch? || a.d <= 1)
  {
    ActionApplies(ps, forceLines);
    LegalWithinFour(ActionAt(ps, forceLines), ViewAt(ps.scraps, ps.pos, forceLines));
  }

  lemma LegalWithinFour(a: Action, v: View)
    requires Legal(a, v)
    ensures WithinFour(a) && (a.NoMatch? || a.d <= 1)
  {
    if a.Reduce? {
      LegalKidsWithin(a, v);
    }
  }

  /** An action that looks at no more than four scraps, and whose recipe uses only those it consumes. */
  predicate WithinFour(a: Action) {
    match a
    case NoMatch => true
    case Relabel(at, _, _, _) => at < 4
    case Reduce(at, k, _, _, _, reserve, _, recipe) =>
      && 1 <= k && at + k <= 4 && KidsWithin(recipe, at, k)
      && (reserve.Some? ==> at <= reserve.value < at + k)
  }

  lemma GoodAnchored(ps: State)
    requires Good(ps)
    ensures AllAnchored(ps.scraps, ps.store)
  {
    forall i | 0 <= i < |ps.scraps|
      ensures Anchored(ps.scraps[i], ps.store)
    {
      assert GoodScrap(ps.scraps[i], ps.store);
    }
  }

  lemma PerformReduce(a: Action, ps: State, mem: Store, regs: Regs)
    requires Good(ps) && ps.pos < |ps.scraps| && a.Reduce? && Applicable(a, ps)
    requires mem == BaseStore(a, ps).Append(CookToks(a.recipe, ps.scraps[ps.pos..], a.start))
    requires regs == CookRegs(a.recipe, ps.scraps[ps.pos..], Regs(a.start, a.start))
    requires |BaseStore(a, ps).starts| == |ps.store.starts| > 0
    ensures Perform(a, ps) ==
            State(Splice(BaseScraps(a, ps), ps.pos + a.at, a.k, Scrap(a.cat, regs.init, regs.cur, |mem.starts| - 1)),
                  Move(ps.pos, a.d), mem.Freeze())
  {
  }

  lemma BaseSame(a: Action, ps: State)
    requires Good(ps) && ps.pos < |ps.scraps| && a.Reduce? && Applicable(a, ps)
    ensures ScrapsSameButReserved(ps.scraps, BaseScraps(a, ps))
    ensures |BaseStore(a, ps).starts| == |ps.store.starts| > 0
  {
    if a.reserve.Some? {
      ReserveIsReserving(ps.scraps, ps.store, ps.pos + a.reserve.value);
    }
  }

  lemma {:induction false} KidsWithinInRange(r: Recipe, at: nat, n: nat, m: nat)
    requires KidsWithin(r, at, n) && at + n <= m
    ensures InRange(r, m)
  {
    match r
    case End =>
    case Kid(_, rest) => KidsWithinInRange(rest, at, n, m);
    case Big(_, rest) => KidsWithinInRange(rest, at, n, m);
    case Put(_, rest) => KidsWithinInRange(rest, at, n, m);
  }

  /** Recipes do not look at categories. */
  lemma {:induction false} CookSame(r: Recipe, a: seq<Scrap>, b: seq<Scrap>, regs: Regs)
    requires InRange(r, |a|) && |a| <= |b| && InRange(r, |b|)
    requires forall i :: 0 <= i < |a| ==> a[i].left == b[i].left && a[i].right == b[i].right && a[i].trans == b[i].trans
    ensures CookToks(r, a, regs.cur) == CookToks(r, b, regs.cur) && CookRegs(r, a, regs) == CookRegs(r, b, regs)
  {
    match r
    case End =>
    case Kid(i, rest) => CookSame(rest, a, b, Meet(regs, a[i].left, a[i].right));
    case Big(s, rest) => CookSame(rest, a, b, Meet(regs, ModeOf(s), ModeOf(s)));
    case Put(_, rest) => CookSame(rest, a, b, regs);
  }

  lemma WindowSame(a: Action, ps: State, window: seq<Scrap>)
    requires Good(ps) && ps.pos < |ps.scraps| && a.Reduce? && Applicable(a, ps)
    requires ScrapsSameButReserved(ps.scraps, BaseScraps(a, ps))
    requires window <= BaseScraps(a, ps)[ps.pos..] && InRange(a.recipe, |window|)
    ensures CookToks(a.recipe, window, a.start) == CookToks(a.recipe, ps.scraps[ps.pos..], a.start)
    ensures CookRegs(a.recipe, window, Regs(a.start, a.start))
         == CookRegs(a.recipe, ps.scraps[ps.pos..], Regs(a.start, a.start))
  {
    var w := ps.scraps[ps.pos..];
    forall i | 0 <= i < |window|
      ensures window[i].left == w[i].left && window[i].right == w[i].right && window[i].trans == w[i].trans
    {
      assert ScrapSameButReserved(ps.scraps[ps.pos + i], BaseScraps(a, ps)[ps.pos + i]);
      assert window[i] == BaseScraps(a, ps)[ps.pos..][i];
    }
    CookSame(a.recipe, window, w, Regs(a.start, a.start));
  }

  lemma BothUpdate(a: seq<Scrap>, base: nat, lo: nat, hi: nat, last: nat, q: nat, i: nat, s: Scrap)
    requires base <= lo + 1 <= hi <= last + 1 <= |a| && base <= q <= last && (q <= lo || hi <= q)
    requires i == if q <= lo then q - base else lo + 1 - base + (q - hi)
    ensures Both(a[q := s], base, lo, hi, last) == Both(a, base, lo, hi, last)[i := s]
  {
  }

  /** Positions between `j` and `end` hold what was `k-1` positions further up; the others are as they were. */
  predicate Shifted(was: seq<Scrap>, now: seq<Scrap>, j: nat, k: nat, end: nat)
    requires |was| == |now| && 1 <= k && end + k - 1 <= |was|
  {
    && (forall x :: 0 <= x <= j && x < |now| ==> now[x] == was[x])
    && (forall x :: j < x < end ==> now[x] == was[x + k - 1])
    && (forall x :: j < x && end <= x < |now| ==> now[x] == was[x])
  }

  lemma ShiftedOne(a: seq<Scrap>, j: nat, end: nat)
    requires end <= |a|
    ensures Shifted(a, a, j, 1, end)
  {
  }

  /** What the array stands for, after the shift in `Reduce`. */
  lemma Reduced(was: seq<Scrap>, now: seq<Scrap>, base: nat, j: nat, k: nat, lo: nat, hi: nat, last: nat, s: Scrap)
    requires |was| == |now| && base <= j && 1 <= k && j + k <= lo + 1 <= hi <= last + 1 <= |was|
    requires Shifted(was[j := s], now, j, k, lo - k + 2)
    ensures Both(now, base, lo - k + 1, hi, last) == Splice(Both(was, base, lo, hi, last), j - base, k, s)
  {
    var r := Splice(was[base..lo + 1], j - base, k, s);
    forall x | 0 <= x < |r|
      ensures now[base..lo - k + 2][x] == r[x]
    {
      if x > j - base {
        assert r[x] == was[base..lo + 1][x + k - 1];
      }
    }
    assert now[base..lo - k + 2] == r;
    assert now[hi..last + 1] == was[hi..last + 1];
    SpliceFront(was[base..lo + 1], was[hi..last + 1], j - base, k, s);
  }

  lemma SpliceFront(a: seq<Scrap>, b: seq<Scrap>, at: nat, k: nat, s: Scrap)
    requires at + k <= |a|
    ensures Splice(a, at, k, s) + b == Splice(a + b, at, k, s)
  {
    assert (a + b)[..at] == a[..at] && (a + b)[at + k..] == a[at + k..] + b;
  }
}
