/** The output routine of CWEAVE that reads a translation token by token, with a stack of texts. */
module TokenOutputs {
  import opened Scraps
  import opened TokenTrees

  /** The number of entries of the stack that can be in use. */
  const STACK_SIZE: nat := 399

  class TokenOutput {
    /** `tok_mem`, and `tok_start`, whose last element is that of the next text. */
    var tokMem: seq<Tok>
    var tokStart: seq<nat>
    /** `cur_state`. */
    var curEnd: nat
    var curTok: nat
    var curInner: bool
    const stack: array<Level>
    var stackPtr: nat

    function Mem(): Store
      reads this`tokMem, this`tokStart
    {
      Store(tokMem, tokStart, map[])
    }

    function CurState(): Level
      reads this
    {
      Level(curEnd, curTok, curInner)
    }

    ghost function Now(): Run
      reads this, stack
    {
      if stackPtr == 0 || stackPtr > stack.Length then Halted else Running(CurState(), stack[1..stackPtr])
    }

    ghost predicate Valid()
      reads this, stack
    {
      stack.Length == STACK_SIZE + 1 && stackPtr <= STACK_SIZE && Mem().Ok() && RunOk(Mem(), Now())
    }

    /** Everything that is still to be read. */
    ghost function Pending(): seq<Lexeme>
      requires Valid()
      reads this, stack
    {
      ToRead(Mem(), Now())
    }

    /** The texts nested in the levels from number `n` on fit the stack. */
    ghost predicate Fits(n: nat)
      requires Valid()
      reads this, stack
    {
      FitsFrom(Mem(), Now(), n, STACK_SIZE)
    }

    /** How deep the texts under construction are nested. */
    function PendingDepth(): nat
      requires Mem().Ok() && |tokStart| > 0 && RefsBelow(Mem().Pending(), |tokStart| - 1)
      reads this`tokMem, this`tokStart
    {
      Depth(Mem(), Mem().Pending(), |tokStart| - 1)
    }

    /** `init_stack`. */
    constructor (st: Store)
      requires st.Ok()
      ensures Valid() && tokMem == st.toks && tokStart == st.starts && Pending() == [] && !curInner
    {
      tokMem, tokStart := st.toks, st.starts;
      curEnd, curTok, curInner := 0, 0, false;
      stack := new Level[STACK_SIZE + 1](_ => Level(0, 0, false));
      stackPtr := 0;
    }

    /** `push_level`. */
    method PushLevel(p: nat) returns (ok: bool)
      requires stack.Length == STACK_SIZE + 1 && stackPtr <= STACK_SIZE && p + 1 < |tokStart|
      modifies this`curEnd, this`curTok, this`stackPtr, stack
      ensures ok == (old(stackPtr) < STACK_SIZE) && (!ok ==> stackPtr == old(stackPtr))
      ensures ok ==> stackPtr == old(stackPtr) + 1 && CurState() == TextLevel(Mem(), p, curInner)
      ensures ok && old(stackPtr) > 0 ==> stack[1..stackPtr] == old(stack[1..stackPtr]) + [old(CurState())]
      ensures forall i :: 0 <= i < stack.Length && i != old(stackPtr) ==> stack[i] == old(stack[i])
    {
      if stackPtr == STACK_SIZE {
        return false;
      }
      if stackPtr > 0 {
        stack[stackPtr] := CurState();
      }
      stackPtr := stackPtr + 1;
      curTok, curEnd := tokStart[p], tokStart[p + 1];
      assert old(stackPtr) > 0 ==> stack[1..old(stackPtr)] == old(stack[1..stackPtr]);
      return true;
    }

    /** `pop_level`. */
    method PopLevel()
      requires stack.Length == STACK_SIZE + 1 && 1 < stackPtr <= STACK_SIZE
      modifies this`curEnd, this`curTok, this`curInner, this`stackPtr
      ensures old(Now()).Running? && old(Now()).saved != [] && Now() == Popped(old(Now()))
              && stackPtr == old(stackPtr) - 1
    {
      stackPtr := stackPtr - 1;
      var l := stack[stackPtr];
      curEnd, curTok, curInner := l.end, l.tok, l.inner;
      assert stack[1..old(stackPtr)][..stackPtr - 1] == stack[1..stackPtr];
    }

    /** `get_output`: the next token, which `curInner` says the mode of. If `ok` is not set, texts are nested too
        deep. The levels `base` are not touched while the text above them has not come to its end. */
    method GetOutput(ghost base: seq<Level>, ghost end: nat) returns (ok: bool, a: Tok)
      requires Valid() && Pending() != []
      modifies this`curEnd, this`curTok, this`curInner, this`stackPtr, stack
      ensures ok ==> Valid() && stackPtr > 0 && old(Pending()) == [Lexeme(a, curInner)] + Pending()
      ensures !ok ==> stackPtr == STACK_SIZE
      ensures old(base == [] || Above(Mem(), Now(), base, end)) ==>
                if ok then Fits(|base|) == old(Fits(|base|)) else !old(Fits(|base|))
      ensures ok && old(Above(Mem(), Now(), base, end)) ==>
                Above(Mem(), Now(), base, end) || (Now().saved == base && curTok == curEnd)
    {
      hide Store.Ok, RunOk, ToRead, RunSteps, RefsBelow, Above, FitsFrom, Watched;
      ghost var p, above, fits := Pending(), Above(Mem(), Now(), base, end), Fits(|base|);
      a := END;
      WatchedIs(Mem(), Now(), base, end, above, fits);
      while true
        invariant Valid() && Pending() == p && Watched(Mem(), Now(), base, end, above, fits)
        decreases RunSteps(Mem(), Now())
      {
        ghost var r := Now();
        NotHalted(Mem(), r);
        if curTok == curEnd {
          PopStep(Mem(), r);
          PopKeeps(Mem(), r, base, end, above, fits);
          PopLevel();
        } else {
          CurInRange(Mem(), r);
          a := tokMem[curTok];
          if IsText(a) {
            PushStep(Mem(), r);
            PushKeeps(Mem(), r, base, end, above, fits);
            curTok := curTok + 1;
            ok := PushLevel(a.text);
            if !ok {
              return;
            }
            if a.Inner? {
              curInner := true;
            }
          } else {
            TokenStep(Mem(), r);
            TokenKeeps(Mem(), r, base, end, above, fits);
            curTok := curTok + 1;
            assert Now() == r.(cur := Next(r.cur));
            return true, a;
          }
        }
      }
    }

    /** The part of `make_output` that puts `end_translation` at the end of the text under construction and begins to
        read. */
    method StartOutput() returns (ok: bool)
      requires Valid() && |tokStart| > 0 && RefsBelow(Mem().Pending(), |tokStart| - 1)
      modifies this`tokMem, this`tokStart, this`curEnd, this`curTok, this`stackPtr, stack
      ensures tokMem == old(tokMem) + [END] && tokStart == old(tokStart) + [|tokMem|]
      ensures Mem().Ok() && RunOk(Mem(), old(Now()))
      ensures !ok ==> stackPtr == STACK_SIZE == old(stackPtr)
      ensures ok ==> Valid() && Above(Mem(), Now(), Below(old(Now())), |tokMem|)
      ensures ok ==> (Fits(old(stackPtr)) <==> old(stackPtr) + 1 + old(PendingDepth()) <= STACK_SIZE)
      ensures ok ==>
                Pending() ==
                old(Flatten(Mem(), Mem().Pending(), curInner, |tokStart| - 1) + [Lexeme(END, curInner)] + Pending())
    {
      hide Store.Shaped, Store.WellFounded, RunOk, ToRead, RunSteps, RefsBelow, Flatten, Above, Depth, FitsFrom;
      ghost var st, r := Mem(), Now();
      EndedText(st, curInner);
      EndedDepth(st);
      tokMem := tokMem + [END];
      tokStart := tokStart + [|tokMem|];
      RunGrown(st, Mem(), r);
      BelowOut(Mem(), r);
      StartFits(Mem(), Below(r), |tokStart| - 2, curInner);
      StartStep(Mem(), r, |tokStart| - 2, curInner);
      ok := PushLevel(|tokStart| - 2);
      if ok {
        assert Now().saved == Below(r);
        StartAbove(Mem(), Below(r), Now());
      }
    }

    /** `make_output`: the text under construction is read, up to the token that is put at its end. What was still to be
        read before stays to be read, on the levels where it was. */
    method MakeOutput() returns (ok: bool, out: seq<Lexeme>)
      requires Valid() && |tokStart| > 0 && RefsBelow(Mem().Pending(), |tokStart| - 1)
      requires forall x :: x in Flatten(Mem(), Mem().Pending(), curInner, |tokStart| - 1) ==> x.tok != END
      modifies this`tokMem, this`tokStart, this`curEnd, this`curTok, this`curInner, this`stackPtr, stack
      ensures tokMem == old(tokMem) + [END] && tokStart == old(tokStart) + [|tokMem|]
      ensures ok <==> old(stackPtr) + 1 + old(PendingDepth()) <= STACK_SIZE
      ensures !ok ==> stackPtr == STACK_SIZE
      ensures ok ==> out == old(Flatten(Mem(), Mem().Pending(), curInner, |tokStart| - 1))
      ensures ok ==> Valid() && stackPtr > 0 && curInner == old(curInner) && Pending() == old(Pending())
      ensures ok ==> Now().saved == Below(old(Now())) && curTok == curEnd
    {
      hide Store.Shaped, Store.WellFounded, RunOk, ToRead, RunSteps, RefsBelow, Flatten, Above, Depth, FitsFrom,
           LevelOk;
      ghost var st, r := Mem(), Now();
      ghost var text := Flatten(st, st.Pending(), curInner, |tokStart| - 1);
      ok := StartOutput();
      out := [];
      if !ok {
        return;
      }
      ghost var m, base := Mem(), Below(r);
      EndedText(st, curInner);
      RunGrown(st, m, r);
      while true
        invariant Valid() && Mem() == m && |out| <= |text| && out == text[..|out|]
        invariant Pending() == text[|out|..] + [Lexeme(END, old(curInner))] + old(Pending())
        invariant Above(m, Now(), base, |m.toks|)
        invariant Fits(|base|) <==> old(stackPtr) + 1 + old(PendingDepth()) <= STACK_SIZE
        decreases |text| - |out|
        modifies this`curEnd, this`curTok, this`curInner, this`stackPtr, stack
      {
        ghost var before := Pending();
        var a;
        ok, a := GetOutput(base, |m.toks|);
        if !ok {
          return;
        }
        NextLexeme(text, |out|, Lexeme(END, old(curInner)), old(Pending()), Lexeme(a, curInner), Pending());
        if a == END {
          NotAbove(m, r, Now());
          EndFits(m, Now(), STACK_SIZE);
          return;
        }
        NotAtBase(m, r, Now());
        out := out + [Lexeme(a, curInner)];
      }
    }

    /** `output_C`: a translation `t`, which has just been made, is read as an inner text. Then the token memory is as
        it was, and reading can go on where it was interrupted. */
    method OutputC(st: Store, t: nat) returns (ok: bool, out: seq<Lexeme>)
      requires Valid() && st.Ok() && st.Texts() > t && Grown(Mem(), st) && st.Pending() == []
               && RefsBelow(st.TextToks(t), t)
      requires forall x :: x in Flatten(st, st.TextToks(t), true, t) ==> x.tok != END
      modifies this`tokMem, this`tokStart, this`curEnd, this`curTok, this`curInner, this`stackPtr, stack
      ensures ok <==> old(stackPtr) + 2 + Depth(st, st.TextToks(t), t) <= STACK_SIZE
      ensures !ok ==> stackPtr == STACK_SIZE
      ensures ok ==> out == Flatten(st, st.TextToks(t), true, t)
      ensures ok ==> Valid() && tokMem == old(tokMem) && tokStart == old(tokStart) && Pending() == old(Pending())
    {
      hide Store.Shaped, Store.WellFounded, RunOk, ToRead, RunSteps, RefsBelow, Flatten, Above, Depth, FitsFrom,
           LevelOk;
      ghost var m, r := Mem(), Now();
      var saveMem, saveStart := tokMem, tokStart;
      InnerText(st, t, curInner);
      tokMem := st.toks + [Inner(t)];
      tokStart := st.starts;
      assert Mem() == Store(st.toks + [Inner(t)], st.starts, map[]);
      RunGrown(m, Mem(), r);
      ok, out := MakeOutput();
      tokMem, tokStart := saveMem, saveStart;
      if ok {
        BackOk(m, r, Now());
      }
    }
  }

  /** The levels that a new text is put on. */
  function Below(r: Run): seq<Level> {
    if r.Halted? then [] else r.saved + [r.cur]
  }

  lemma BelowOut(st: Store, r: Run)
    requires st.Ok() && RunOk(st, r)
    ensures AllOk(st, Below(r)) && SavedOut(st, Below(r)) == ToRead(st, r)
  {
    if r.Running? {
      var b := Below(r);
      assert b[..|b| - 1] == r.saved;
    }
  }

  /** While the texts above some levels are read: the levels are not touched, and whether the texts fit is still the
      same. */
  predicate Watched(st: Store, r: Run, base: seq<Level>, end: nat, above: bool, fits: bool)
    requires st.Ok() && RunOk(st, r)
  {
    && (above ==> Above(st, r, base, end))
    && (above || base == [] ==> FitsFrom(st, r, |base|, STACK_SIZE) == fits)
  }

  lemma WatchedIs(st: Store, r: Run, base: seq<Level>, end: nat, above: bool, fits: bool)
    requires st.Ok() && RunOk(st, r) && above == Above(st, r, base, end) && fits == FitsFrom(st, r, |base|, STACK_SIZE)
    ensures Watched(st, r, base, end, above, fits)
  {
  }

  lemma PopKeeps(st: Store, r: Run, base: seq<Level>, end: nat, above: bool, fits: bool)
    requires st.Ok() && RunOk(st, r) && r.Running? && r.cur.tok == r.cur.end && 0 < |r.saved| < STACK_SIZE
    requires Watched(st, r, base, end, above, fits)
    ensures RunOk(st, Popped(r)) && Watched(st, Popped(r), base, end, above, fits)
  {
    hide Above, FitsFrom, RunOk, Store.Ok;
    PopStep(st, r);
    if above {
      AbovePop(st, r, base, end);
    }
    if above || base == [] {
      PopFits(st, r, |base|, STACK_SIZE);
    }
  }

  lemma PushKeeps(st: Store, r: Run, base: seq<Level>, end: nat, above: bool, fits: bool)
    requires st.Ok() && RunOk(st, r) && r.Running? && r.cur.tok < r.cur.end && r.cur.tok < |st.toks|
    requires IsText(st.toks[r.cur.tok]) && Watched(st, r, base, end, above, fits)
    ensures |r.saved| + 1 >= STACK_SIZE && (above || base == []) ==> !fits
    ensures var a := st.toks[r.cur.tok];
      && a.text + 1 < |st.starts|
      && var next := Running(TextLevel(st, a.text, r.cur.inner || a.Inner?), r.saved + [Next(r.cur)]);
         RunOk(st, next) && Watched(st, next, base, end, above, fits)
  {
    hide Above, FitsFrom, RunOk, Store.Ok;
    PushStep(st, r);
    CurInRange(st, r);
    var a := st.toks[r.cur.tok];
    if above {
      AboveHas(st, r, base, end);
      AbovePush(st, r, base, end, TextLevel(st, a.text, r.cur.inner || a.Inner?));
    }
    if above || base == [] {
      PushFits(st, r, |base|, STACK_SIZE);
    }
  }

  lemma TokenKeeps(st: Store, r: Run, base: seq<Level>, end: nat, above: bool, fits: bool)
    requires st.Ok() && RunOk(st, r) && r.Running? && r.cur.tok < r.cur.end && r.cur.tok < |st.toks|
    requires !IsText(st.toks[r.cur.tok]) && Watched(st, r, base, end, above, fits)
    ensures var next := r.(cur := Next(r.cur));
      && RunOk(st, next) && (above || base == [] ==> FitsFrom(st, next, |base|, STACK_SIZE) == fits)
      && (above ==> Above(st, next, base, end) || (next.saved == base && next.cur.tok == next.cur.end))
  {
    hide Above, FitsFrom, RunOk, Store.Ok;
    TokenStep(st, r);
    CurInRange(st, r);
    TokenFits(st, r, |base|, STACK_SIZE);
    if above {
      AboveToken(st, r, base, end);
    }
  }

  lemma EndedDepth(st: Store)
    requires st.Ok() && RefsBelow(st.Pending(), |st.starts| - 1)
    ensures var st' := st.Append([END]).Freeze();
      && st'.Ok() && RefsBelow(st'.TextToks(|st.starts| - 1), |st.starts| - 1)
      && Depth(st', st'.TextToks(|st.starts| - 1), |st.starts| - 1) == Depth(st, st.Pending(), |st.starts| - 1)
  {
    var n := |st.starts| - 1;
    var st' := st.Append([END]).Freeze();
    EndedOk(st);
    assert st'.TextToks(n) == st.Pending() + [END];
    assert RefsBelow([END], n);
    DepthAppend(st', st.Pending(), [END], n);
    DepthGrown(st, st', st.Pending(), n);
    var one: seq<Tok> := [END];
    assert one[1..] == [];
  }

  /** A text that is begun on top of some levels. */
  lemma StartFits(st: Store, base: seq<Level>, t: nat, inner: bool)
    requires st.Ok() && t < st.Texts() && RefsBelow(st.TextToks(t), t) && AllOk(st, base)
    ensures var next := Running(TextLevel(st, t, inner), base);
      && RunOk(st, next)
      && (FitsFrom(st, next, |base|, STACK_SIZE) <==> |base| + 1 + Depth(st, st.TextToks(t), t) <= STACK_SIZE)
  {
    TextLevelOk(st, t, inner);
  }

  /** A text that has come to its end fits. */
  lemma EndFits(st: Store, r: Run, size: nat)
    requires st.Ok() && RunOk(st, r) && r.Running? && r.cur.tok == r.cur.end && |r.saved| < size
    ensures FitsFrom(st, r, |r.saved|, size)
  {
  }

  lemma StartAbove(m: Store, base: seq<Level>, now: Run)
    requires now.Running? && now.saved == base && now.cur.tok < now.cur.end == |m.toks| && m.toks[|m.toks| - 1] == END
    ensures Above(m, now, base, |m.toks|)
  {
  }

  /** When no more is left than there was before, the new text has come to its end. */
  lemma NotAbove(m: Store, r: Run, now: Run)
    requires m.Ok() && RunOk(m, r) && RunOk(m, now) && ToRead(m, now) == ToRead(m, r)
    ensures !Above(m, now, Below(r), |m.toks|)
  {
    BelowOut(m, r);
    if Above(m, now, Below(r), |m.toks|) {
      AboveLonger(m, now, Below(r), |m.toks|);
    }
  }

  /** When more is left, it has not. */
  lemma NotAtBase(m: Store, r: Run, now: Run)
    requires m.Ok() && RunOk(m, r) && RunOk(m, now) && now.Running? && |ToRead(m, now)| > |ToRead(m, r)|
    ensures !(now.saved == Below(r) && now.cur.tok == now.cur.end)
  {
    BelowOut(m, r);
  }

  /** At its end, it does not matter that the text is not there any more. */
  lemma BackOk(m: Store, r: Run, now: Run)
    requires m.Ok() && RunOk(m, r) && now.Running? && now.saved == Below(r) && now.cur.tok == now.cur.end
    ensures RunOk(m, now) && ToRead(m, now) == ToRead(m, r)
  {
    BelowOut(m, r);
  }

  /** An inner text that is put into the text under construction. */
  lemma InnerText(st: Store, t: nat, inner: bool)
    requires st.Ok() && t < st.Texts() && st.Pending() == [] && RefsBelow(st.TextToks(t), t)
    ensures var s := Store(st.toks + [Inner(t)], st.starts, map[]);
      && s.Ok() && Grown(st, s) && RefsBelow(s.Pending(), |s.starts| - 1)
      && Flatten(s, s.Pending(), inner, |s.starts| - 1) == Flatten(st, st.TextToks(t), true, t)
      && Depth(s, s.Pending(), |s.starts| - 1) == 1 + Depth(st, st.TextToks(t), t)
  {
    var s, n := Store(st.toks + [Inner(t)], st.starts, map[]), |st.starts| - 1;
    assert st.starts[n] == |st.toks|;
    assert s.Pending() == [Inner(t)];
    TextBelow(s, t);
    assert s.TextToks(t) == st.TextToks(t);
    FlattenGrown(st, s, st.TextToks(t), true, t);
    DepthGrown(st, s, st.TextToks(t), t);
    var one: seq<Tok> := [Inner(t)];
    assert one[1..] == [];
  }

  lemma NotHalted(st: Store, r: Run)
    requires st.Ok() && RunOk(st, r) && ToRead(st, r) != []
    ensures r.Running? && r.cur.tok <= r.cur.end
  {
  }

  lemma CurInRange(st: Store, r: Run)
    requires st.Ok() && RunOk(st, r) && r.Running? && r.cur.tok < r.cur.end
    ensures r.cur.tok < |st.toks| && r.cur.end <= |st.toks|
  {
  }

  /** The text under construction with the token at its end. */
  lemma EndedText(st: Store, inner: bool)
    requires st.Ok() && RefsBelow(st.Pending(), |st.starts| - 1)
    ensures var st' := st.Append([END]).Freeze();
      && st'.Ok() && Grown(st, st') && st'.starts[|st.starts| - 1] < |st'.toks|
        && RefsBelow(st'.TextToks(|st.starts| - 1), |st.starts| - 1)
      && Flatten(st', st'.TextToks(|st.starts| - 1), inner, |st.starts| - 1)
         == Flatten(st, st.Pending(), inner, |st.starts| - 1) + [Lexeme(END, inner)]
  {
    var n := |st.starts| - 1;
    var st' := st.Append([END]).Freeze();
    EndedOk(st);
    assert st'.TextToks(n) == st.Pending() + [END];
    assert RefsBelow([END], n);
    FlattenAppend(st', st.Pending(), [END], inner, n);
    FlattenGrown(st, st', st.Pending(), inner, n);
    var one: seq<Tok> := [END];
    assert one[1..] == [];
  }

  lemma EndedOk(st: Store)
    requires st.Ok() && RefsBelow(st.Pending(), |st.starts| - 1)
    ensures st.Append([END]).Freeze().Ok() && Grown(st, st.Append([END]).Freeze())
  {
    var n := |st.starts| - 1;
    var st' := st.Append([END]).Freeze();
    forall t, j | 0 <= t < st'.Texts() && st'.starts[t] <= j < st'.starts[t + 1] && IsText(st'.toks[j])
      ensures st'.toks[j].text < t
    {
      if t == n {
        assert j < |st.toks| && st.toks[j] == st.Pending()[j - st.starts[n]];
      }
    }
  }

  lemma NextLexeme(text: seq<Lexeme>, k: nat, end: Lexeme, more: seq<Lexeme>, x: Lexeme, now: seq<Lexeme>)
    requires k <= |text| && end.tok == END && text[k..] + [end] + more == [x] + now
    requires forall y :: y in text ==> y.tok != END
    ensures if k < |text| then x == text[k] && x.tok != END && now == text[k + 1..] + [end] + more
            && text[..k] + [x] == text[..k + 1]
            else x == end && now == more
  {
    var all := text[k..] + [end] + more;
    assert x == all[0] && now == all[1..];
    if k < |text| {
      assert all[1..] == text[k + 1..] + [end] + more;
      assert text[k] in text;
    }
  }
}
