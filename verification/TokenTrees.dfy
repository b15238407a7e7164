/** The translations of CWEAVE as trees of texts, and what reading them token by token gives. */
module TokenTrees {
  import opened Scraps

  /** The token `end_translation`. */
  const END: Tok := Chr(Other(0x93))

  /** What the output routine gets: a token that is not a text, and whether it comes from inside an inner text. */
  datatype Lexeme = Lexeme(tok: Tok, inner: bool)

  predicate IsText(t: Tok) {
    t.Text? || t.Inner?
  }

  predicate RefsBelow(ts: seq<Tok>, bound: nat) {
    forall i :: 0 <= i < |ts| && IsText(ts[i]) ==> ts[i].text < bound
  }

  /** The tokens of a text, with the texts it refers to in their places. */
  function Flatten(st: Store, ts: seq<Tok>, inner: bool, bound: nat): seq<Lexeme>
    requires st.Ok() && bound <= st.Texts() && RefsBelow(ts, bound)
    decreases bound, |ts|
  {
    if ts == [] then []
    else
      assert RefsBelow(ts[1..], bound);
      (if IsText(ts[0]) then
         TextBelow(st, ts[0].text);
         Flatten(st, st.TextToks(ts[0].text), inner || ts[0].Inner?, ts[0].text)
       else [Lexeme(ts[0], inner)])
      + Flatten(st, ts[1..], inner, bound)
  }

  /** A bound on the steps that this takes. */
  function Steps(st: Store, ts: seq<Tok>, bound: nat): nat
    requires st.Ok() && bound <= st.Texts() && RefsBelow(ts, bound)
    decreases bound, |ts|
  {
    if ts == [] then 0
    else
      assert RefsBelow(ts[1..], bound);
      1 + (if IsText(ts[0]) then TextBelow(st, ts[0].text); 1 + Steps(st, st.TextToks(ts[0].text), ts[0].text) else 0)
      + Steps(st, ts[1..], bound)
  }

  /** How many levels of texts are nested in some tokens. */
  function Depth(st: Store, ts: seq<Tok>, bound: nat): nat
    requires st.Ok() && bound <= st.Texts() && RefsBelow(ts, bound)
    decreases bound, |ts|
  {
    if ts == [] then 0
    else
      assert RefsBelow(ts[1..], bound);
      Max(if IsText(ts[0]) then TextBelow(st, ts[0].text); 1 + Depth(st, st.TextToks(ts[0].text), ts[0].text) else 0,
          Depth(st, ts[1..], bound))
  }

  function Max(a: nat, b: nat): nat {
    if a < b then b else a
  }

  lemma TextBelow(st: Store, t: nat)
    requires st.Ok() && t < st.Texts()
    ensures st.starts[t] <= st.starts[t + 1] <= |st.toks| && RefsBelow(st.TextToks(t), t)
  {
    var ts := st.TextToks(t);
    forall i | 0 <= i < |ts| && IsText(ts[i])
      ensures ts[i].text < t
    {
      assert ts[i] == st.toks[st.starts[t] + i];
    }
  }

  /** The bound does not matter. */
  lemma {:induction false} FlattenBound(st: Store, ts: seq<Tok>, inner: bool, bound: nat, bound': nat)
    requires st.Ok() && bound <= bound' <= st.Texts() && RefsBelow(ts, bound)
    ensures RefsBelow(ts, bound') && Flatten(st, ts, inner, bound') == Flatten(st, ts, inner, bound)
    ensures Steps(st, ts, bound') == Steps(st, ts, bound) && Depth(st, ts, bound') == Depth(st, ts, bound)
    decreases |ts|
  {
    if ts != [] {
      assert RefsBelow(ts[1..], bound);
      FlattenBound(st, ts[1..], inner, bound, bound');
    }
  }

  lemma RefsAppend(a: seq<Tok>, b: seq<Tok>, bound: nat)
    requires RefsBelow(a, bound) && RefsBelow(b, bound)
    ensures RefsBelow(a + b, bound)
    ensures a != [] ==> RefsBelow(a[1..], bound)
  {
  }

  lemma {:induction false} FlattenAppend(st: Store, a: seq<Tok>, b: seq<Tok>, inner: bool, bound: nat)
    requires st.Ok() && bound <= st.Texts() && RefsBelow(a, bound) && RefsBelow(b, bound)
    ensures RefsBelow(a + b, bound)
            && Flatten(st, a + b, inner, bound) == Flatten(st, a, inner, bound) + Flatten(st, b, inner, bound)
    decreases |a|
  {
    hide Store.Ok, RefsBelow;
    RefsAppend(a, b, bound);
    if a == [] {
      assert a + b == b;
    } else {
      assert (a + b)[0] == a[0] && (a + b)[1..] == a[1..] + b;
      FlattenAppend(st, a[1..], b, inner, bound);
    }
  }

  lemma {:induction false} DepthAppend(st: Store, a: seq<Tok>, b: seq<Tok>, bound: nat)
    requires st.Ok() && bound <= st.Texts() && RefsBelow(a, bound) && RefsBelow(b, bound)
    ensures RefsBelow(a + b, bound) && Depth(st, a + b, bound) == Max(Depth(st, a, bound), Depth(st, b, bound))
    decreases |a|
  {
    hide Store.Ok, RefsBelow;
    RefsAppend(a, b, bound);
    if a == [] {
      assert a + b == b;
    } else {
      assert (a + b)[0] == a[0] && (a + b)[1..] == a[1..] + b;
      DepthAppend(st, a[1..], b, bound);
    }
  }

  /** `st'` has the texts of `st`, and perhaps more. */
  predicate Grown(st: Store, st': Store)
    requires st.Ok() && st'.Ok()
  {
    st.starts <= st'.starts && st.toks <= st'.toks
  }

  /** More texts do not change what an old one means. */
  lemma {:induction false} FlattenGrown(st: Store, st': Store, ts: seq<Tok>, inner: bool, bound: nat)
    requires st.Ok() && st'.Ok() && Grown(st, st') && bound <= st.Texts() && RefsBelow(ts, bound)
    ensures bound <= st'.Texts() && Flatten(st', ts, inner, bound) == Flatten(st, ts, inner, bound)
    decreases bound, |ts|
  {
    if ts != [] {
      assert RefsBelow(ts[1..], bound);
      if IsText(ts[0]) {
        var u := ts[0].text;
        TextBelow(st, u);
        TextBelow(st', u);
        assert st'.TextToks(u) == st.TextToks(u);
        FlattenGrown(st, st', st.TextToks(u), inner || ts[0].Inner?, u);
      }
      FlattenGrown(st, st', ts[1..], inner, bound);
    }
  }

  lemma {:induction false} DepthGrown(st: Store, st': Store, ts: seq<Tok>, bound: nat)
    requires st.Ok() && st'.Ok() && Grown(st, st') && bound <= st.Texts() && RefsBelow(ts, bound)
    ensures bound <= st'.Texts() && Depth(st', ts, bound) == Depth(st, ts, bound)
    decreases bound, |ts|
  {
    if ts != [] {
      assert RefsBelow(ts[1..], bound);
      if IsText(ts[0]) {
        var u := ts[0].text;
        TextBelow(st, u);
        TextBelow(st', u);
        assert st'.TextToks(u) == st.TextToks(u);
        DepthGrown(st, st', st.TextToks(u), u);
      }
      DepthGrown(st, st', ts[1..], bound);
    }
  }

  // ---------- the stack ----------

  /** An `output_state`. */
  datatype Level = Level(end: nat, tok: nat, inner: bool)

  /** The stack: `saved` are the entries below the current level. */
  datatype Run = Halted | Running(cur: Level, saved: seq<Level>)

  function Rest(st: Store, l: Level): seq<Tok>
    requires l.tok < l.end ==> l.end <= |st.toks|
  {
    if l.tok < l.end then st.toks[l.tok..l.end] else []
  }

  /** A level is at its end, or what is left of it refers to texts that are there. */
  predicate LevelOk(st: Store, l: Level) {
    l.tok <= l.end && (l.tok < l.end ==> l.end <= |st.toks| && st.Texts() >= 0 && RefsBelow(Rest(st, l), st.Texts()))
  }

  function LevelOut(st: Store, l: Level): seq<Lexeme>
    requires st.Ok() && LevelOk(st, l)
  {
    Flatten(st, Rest(st, l), l.inner, st.Texts())
  }

  predicate AllOk(st: Store, ls: seq<Level>) {
    forall i :: 0 <= i < |ls| ==> LevelOk(st, ls[i])
  }

  function SavedOut(st: Store, ls: seq<Level>): seq<Lexeme>
    requires st.Ok() && AllOk(st, ls)
  {
    if ls == [] then [] else LevelOut(st, ls[|ls| - 1]) + SavedOut(st, ls[..|ls| - 1])
  }

  function SavedSteps(st: Store, ls: seq<Level>): nat
    requires st.Ok() && AllOk(st, ls)
  {
    if ls == [] then 0
    else 1 + Steps(st, Rest(st, ls[|ls| - 1]), st.Texts()) + SavedSteps(st, ls[..|ls| - 1])
  }

  predicate RunOk(st: Store, r: Run) {
    r.Running? ==> LevelOk(st, r.cur) && AllOk(st, r.saved)
  }

  /** All that is still to be read. */
  function ToRead(st: Store, r: Run): seq<Lexeme>
    requires st.Ok() && RunOk(st, r)
  {
    if r.Halted? then [] else LevelOut(st, r.cur) + SavedOut(st, r.saved)
  }

  function RunSteps(st: Store, r: Run): nat
    requires st.Ok() && RunOk(st, r)
  {
    if r.Halted? then 0 else Steps(st, Rest(st, r.cur), st.Texts()) + SavedSteps(st, r.saved)
  }

  function Popped(r: Run): Run
    requires r.Running? && r.saved != []
  {
    var last := |r.saved| - 1;
    Running(r.saved[last], r.saved[..last])
  }

  /** At the end of a level. */
  lemma PopStep(st: Store, r: Run)
    requires st.Ok() && RunOk(st, r) && r.Running? && r.cur.tok == r.cur.end
    ensures r.saved == [] ==> ToRead(st, r) == []
    ensures r.saved != [] ==>
              RunOk(st, Popped(r)) && ToRead(st, r) == ToRead(st, Popped(r))
                && RunSteps(st, Popped(r)) < RunSteps(st, r)
  {
  }

  function Next(l: Level): Level {
    l.(tok := l.tok + 1)
  }

  lemma RestNext(st: Store, l: Level)
    requires st.Ok() && LevelOk(st, l) && l.tok < l.end
    ensures l.tok < |st.toks| && LevelOk(st, Next(l)) && Rest(st, l) == [st.toks[l.tok]] + Rest(st, Next(l))
    ensures IsText(st.toks[l.tok]) ==> st.toks[l.tok].text < st.Texts()
  {
    var ts := Rest(st, l);
    assert ts[0] == st.toks[l.tok] && ts[1..] == Rest(st, Next(l));
    assert forall i :: 0 <= i < |ts[1..]| ==> ts[1..][i] == ts[i + 1];
  }

  lemma TokenNext(st: Store, l: Level)
    requires st.Ok() && LevelOk(st, l) && l.tok < l.end <= |st.toks| && !IsText(st.toks[l.tok]) && LevelOk(st, Next(l))
    ensures LevelOut(st, l) == [Lexeme(st.toks[l.tok], l.inner)] + LevelOut(st, Next(l))
    ensures Steps(st, Rest(st, l), st.Texts()) == 1 + Steps(st, Rest(st, Next(l)), st.Texts())
    ensures Depth(st, Rest(st, l), st.Texts()) == Depth(st, Rest(st, Next(l)), st.Texts())
  {
    hide Store.Ok, RefsBelow;
    RestNext(st, l);
    assert Rest(st, l)[1..] == Rest(st, Next(l));
  }

  lemma TextNext(st: Store, l: Level)
    requires st.Ok() && LevelOk(st, l) && l.tok < l.end <= |st.toks| && IsText(st.toks[l.tok]) && LevelOk(st, Next(l))
    requires st.toks[l.tok].text < st.Texts() && RefsBelow(st.TextToks(st.toks[l.tok].text), st.toks[l.tok].text)
    ensures var t := st.toks[l.tok].text;
      && LevelOut(st, l) == Flatten(st, st.TextToks(t), l.inner || st.toks[l.tok].Inner?, t) + LevelOut(st, Next(l))
      && Steps(st, Rest(st, l), st.Texts()) ==
        2 + Steps(st, st.TextToks(t), t) + Steps(st, Rest(st, Next(l)), st.Texts())
  {
    hide Depth, RefsBelow, Store.Shaped, Store.WellFounded;
    RestNext(st, l);
    assert Rest(st, l)[1..] == Rest(st, Next(l));
  }

  lemma TextDepth(st: Store, l: Level)
    requires st.Ok() && LevelOk(st, l) && l.tok < l.end <= |st.toks| && IsText(st.toks[l.tok]) && LevelOk(st, Next(l))
    requires st.toks[l.tok].text < st.Texts() && RefsBelow(st.TextToks(st.toks[l.tok].text), st.toks[l.tok].text)
    ensures Depth(st, Rest(st, l), st.Texts())
         == Max(1 + Depth(st, st.TextToks(st.toks[l.tok].text), st.toks[l.tok].text),
                Depth(st, Rest(st, Next(l)), st.Texts()))
  {
    hide RefsBelow, Store.Shaped, Store.WellFounded;
    RestNext(st, l);
    assert Rest(st, l)[1..] == Rest(st, Next(l));
  }

  /** A token that is not a text. */
  lemma TokenStep(st: Store, r: Run)
    requires st.Ok() && RunOk(st, r) && r.Running? && r.cur.tok < r.cur.end && r.cur.tok < |st.toks|
    requires !IsText(st.toks[r.cur.tok])
    ensures var next := r.(cur := Next(r.cur));
      && RunOk(st, next) && RunSteps(st, next) < RunSteps(st, r)
      && ToRead(st, r) == [Lexeme(st.toks[r.cur.tok], r.cur.inner)] + ToRead(st, next)
  {
    hide Store.Ok, RefsBelow, Flatten, Steps, LevelOut, LevelOk, Rest;
    RestNext(st, r.cur);
    TokenNext(st, r.cur);
  }

  function TextLevel(st: Store, t: nat, inner: bool): Level
    requires t + 1 < |st.starts|
  {
    Level(st.starts[t + 1], st.starts[t], inner)
  }

  lemma TextLevelOk(st: Store, t: nat, inner: bool)
    requires st.Ok() && t < st.Texts()
    ensures LevelOk(st, TextLevel(st, t, inner)) && Rest(st, TextLevel(st, t, inner)) == st.TextToks(t)
    ensures RefsBelow(st.TextToks(t), t)
            && LevelOut(st, TextLevel(st, t, inner)) == Flatten(st, st.TextToks(t), inner, t)
    ensures Steps(st, st.TextToks(t), st.Texts()) == Steps(st, st.TextToks(t), t)
    ensures Depth(st, st.TextToks(t), st.Texts()) == Depth(st, st.TextToks(t), t)
  {
    TextBelow(st, t);
    FlattenBound(st, st.TextToks(t), inner, t, st.Texts());
  }

  /** A text: a new level. */
  lemma PushStep(st: Store, r: Run)
    requires st.Ok() && RunOk(st, r) && r.Running? && r.cur.tok < r.cur.end && r.cur.tok < |st.toks|
    requires IsText(st.toks[r.cur.tok])
    ensures var a := st.toks[r.cur.tok];
      && a.text + 1 < |st.starts|
      && var next := Running(TextLevel(st, a.text, r.cur.inner || a.Inner?), r.saved + [Next(r.cur)]);
         RunOk(st, next) && RunSteps(st, next) < RunSteps(st, r) && ToRead(st, r) == ToRead(st, next)
  {
    hide Store.Shaped, Store.WellFounded, RefsBelow, Flatten, Steps, LevelOut, LevelOk, Rest;
    RestNext(st, r.cur);
    var a := st.toks[r.cur.tok];
    TextLevelOk(st, a.text, r.cur.inner || a.Inner?);
    TextNext(st, r.cur);
    var saved := r.saved + [Next(r.cur)];
    assert saved[..|saved| - 1] == r.saved;
  }

  /** A text that is read from where reading was interrupted: what was to be read comes after it. */
  lemma StartStep(st: Store, r: Run, t: nat, inner: bool)
    requires st.Ok() && RunOk(st, r) && t < st.Texts() && RefsBelow(st.TextToks(t), t)
    ensures var next := Running(TextLevel(st, t, inner), if r.Halted? then [] else r.saved + [r.cur]);
      RunOk(st, next) && ToRead(st, next) == Flatten(st, st.TextToks(t), inner, t) + ToRead(st, r)
  {
    TextLevelOk(st, t, inner);
    if r.Running? {
      var saved := r.saved + [r.cur];
      assert saved[..|saved| - 1] == r.saved;
    }
  }

  /** The same levels in a store with more texts. */
  lemma {:induction false} SavedGrown(st: Store, st': Store, ls: seq<Level>)
    requires st.Ok() && st'.Ok() && Grown(st, st') && st.Texts() >= 0 && AllOk(st, ls)
    ensures AllOk(st', ls) && SavedOut(st', ls) == SavedOut(st, ls)
  {
    forall i | 0 <= i < |ls|
      ensures LevelOk(st', ls[i])
    {
      LevelGrown(st, st', ls[i]);
    }
    if ls != [] {
      LevelGrown(st, st', ls[|ls| - 1]);
      SavedGrown(st, st', ls[..|ls| - 1]);
    }
  }

  lemma LevelGrown(st: Store, st': Store, l: Level)
    requires st.Ok() && st'.Ok() && Grown(st, st') && LevelOk(st, l)
    ensures LevelOk(st', l) && LevelOut(st', l) == LevelOut(st, l)
  {
    assert Rest(st', l) == Rest(st, l);
    FlattenGrown(st, st', Rest(st, l), l.inner, st.Texts());
    FlattenBound(st', Rest(st, l), l.inner, st.Texts(), st'.Texts());
  }

  lemma RunGrown(st: Store, st': Store, r: Run)
    requires st.Ok() && st'.Ok() && Grown(st, st') && RunOk(st, r)
    ensures RunOk(st', r) && ToRead(st', r) == ToRead(st, r)
  {
    if r.Running? {
      LevelGrown(st, st', r.cur);
      SavedGrown(st, st', r.saved);
    }
  }

  // ---------- how much of the stack is needed ----------

  /** The texts nested in the levels from number `n` on fit a stack of `size` entries. */
  predicate FitsFrom(st: Store, r: Run, n: nat, size: nat)
    requires st.Ok() && RunOk(st, r)
  {
    r.Running? ==>
      && |r.saved| + 1 + Depth(st, Rest(st, r.cur), st.Texts()) <= size
      && forall i :: n <= i < |r.saved| ==> i + 1 + Depth(st, Rest(st, r.saved[i]), st.Texts()) <= size
  }

  lemma PopFits(st: Store, r: Run, n: nat, size: nat)
    requires st.Ok() && RunOk(st, r) && r.Running? && r.cur.tok == r.cur.end && n < |r.saved| < size
    ensures RunOk(st, Popped(r)) && (FitsFrom(st, r, n, size) <==> FitsFrom(st, Popped(r), n, size))
  {
    hide Store.Ok, RefsBelow;
  }

  lemma TokenFits(st: Store, r: Run, n: nat, size: nat)
    requires st.Ok() && RunOk(st, r) && r.Running? && r.cur.tok < r.cur.end <= |st.toks| && !IsText(st.toks[r.cur.tok])
    ensures var next := r.(cur := Next(r.cur));
      RunOk(st, next) && (FitsFrom(st, r, n, size) <==> FitsFrom(st, next, n, size))
  {
    hide Store.Ok, RefsBelow, Depth, LevelOk, Rest;
    RestNext(st, r.cur);
    TokenNext(st, r.cur);
  }

  lemma PushFits(st: Store, r: Run, n: nat, size: nat)
    requires st.Ok() && RunOk(st, r) && r.Running? && r.cur.tok < r.cur.end <= |st.toks| && IsText(st.toks[r.cur.tok])
    requires n <= |r.saved|
    ensures |r.saved| + 1 >= size ==> !FitsFrom(st, r, n, size)
    ensures var a := st.toks[r.cur.tok];
      && a.text + 1 < |st.starts|
      && var next := Running(TextLevel(st, a.text, r.cur.inner || a.Inner?), r.saved + [Next(r.cur)]);
         RunOk(st, next) && (FitsFrom(st, r, n, size) <==> FitsFrom(st, next, n, size))
  {
    hide Store.Shaped, Store.WellFounded, RefsBelow, Depth, LevelOk, Rest, TextLevel;
    RestNext(st, r.cur);
    var a := st.toks[r.cur.tok];
    TextLevelOk(st, a.text, r.cur.inner || a.Inner?);
    TextDepth(st, r.cur);
    var next := Running(TextLevel(st, a.text, r.cur.inner || a.Inner?), r.saved + [Next(r.cur)]);
    assert forall i :: 0 <= i < |r.saved| ==> next.saved[i] == r.saved[i];
    assert next.saved[|r.saved|] == Next(r.cur);
  }

  // ---------- a text that is read in the middle of another one ----------

  /** The level above `base`, which ends at `end` with the token `end_translation`, is not yet at its end. */
  predicate Above(st: Store, r: Run, base: seq<Level>, end: nat) {
    && 0 < end <= |st.toks| && st.toks[end - 1] == END && r.Running? && |r.saved| >= |base| && r.saved[..|base|] == base
    && var l := if |r.saved| == |base| then r.cur else r.saved[|base|];
       l.tok < l.end == end
  }

  lemma AboveHas(st: Store, r: Run, base: seq<Level>, end: nat)
    requires Above(st, r, base, end)
    ensures r.Running? && |base| <= |r.saved|
  {
  }

  lemma AbovePop(st: Store, r: Run, base: seq<Level>, end: nat)
    requires Above(st, r, base, end) && r.cur.tok == r.cur.end
    ensures |r.saved| > |base| && Above(st, Popped(r), base, end)
  {
    assert r.saved[..|r.saved| - 1][..|base|] == r.saved[..|base|];
  }

  lemma AbovePush(st: Store, r: Run, base: seq<Level>, end: nat, l: Level)
    requires Above(st, r, base, end) && r.cur.tok < r.cur.end && r.cur.tok < |st.toks| && IsText(st.toks[r.cur.tok])
    ensures Above(st, Running(l, r.saved + [Next(r.cur)]), base, end)
  {
    assert (r.saved + [Next(r.cur)])[..|base|] == r.saved[..|base|];
  }

  /** After a token, the level is still above, unless the token was the last one. */
  lemma AboveToken(st: Store, r: Run, base: seq<Level>, end: nat)
    requires Above(st, r, base, end) && r.cur.tok < r.cur.end && r.cur.tok < |st.toks|
    ensures var next := r.(cur := Next(r.cur));
      Above(st, next, base, end) || (next.saved == base && next.cur.tok == next.cur.end)
  {
    assert |r.saved| == |base| ==> r.saved == base;
  }

  /** While it is, there is more to read than from the levels below. */
  lemma {:induction false} AboveLonger(st: Store, r: Run, base: seq<Level>, end: nat)
    requires st.Ok() && RunOk(st, r) && AllOk(st, base) && Above(st, r, base, end)
    ensures |ToRead(st, r)| > |SavedOut(st, base)|
    decreases |r.saved|
  {
    hide Store.Ok, RefsBelow, LevelOut;
    if |r.saved| == |base| {
      assert r.saved == base;
      EndsLonger(st, r.cur);
    } else {
      var last := |r.saved| - 1;
      assert r.saved[..last][..|base|] == r.saved[..|base|];
      AboveLonger(st, Popped(r), base, end);
    }
  }

  lemma EndsStep(st: Store, l: Level)
    requires st.Ok() && LevelOk(st, l) && l.tok < l.end <= |st.toks| && LevelOk(st, Next(l))
    ensures |LevelOut(st, l)| >= |LevelOut(st, Next(l))|
  {
    hide Store.Ok, RefsBelow, Flatten, LevelOut;
    RestNext(st, l);
    var a := st.toks[l.tok];
    if IsText(a) {
      TextBelow(st, a.text);
      TextNext(st, l);
    } else {
      TokenNext(st, l);
    }
  }

  lemma {:induction false} EndsLonger(st: Store, l: Level)
    requires st.Ok() && LevelOk(st, l) && l.tok < l.end && st.toks[l.end - 1] == END
    ensures |LevelOut(st, l)| > 0
    decreases l.end - l.tok
  {
    hide Store.Ok, RefsBelow, Flatten, LevelOut;
    RestNext(st, l);
    if l.tok + 1 < l.end {
      EndsLonger(st, Next(l));
      EndsStep(st, l);
    } else {
      TokenNext(st, l);
    }
  }
}
