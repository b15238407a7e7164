/** What keeps the output of CTANGLE readable: where blanks are put, and that signs are read back as they were read. */
module TangleSpacing {
  import opened Bytes
  import opened TangleTokens
  import opened TangleExpansion
  import opened TangleWriter

  // ---------- looking back ----------

  /** The event has this character code. */
  predicate Says(e: Event, c: Byte) {
    e == Emit(Char(c)) || e == Emit(Delim(c))
  }

  predicate IsIdent(e: Event) {
    e.Emit? && e.token.Ident?
  }

  /** What may stand between two tokens without counting for the spacing: comments, line marks, messages, the bounds of
      files, the end of a definition, and the characters of a string or constant. */
  predicate Aside(e: Event) {
    match e
    case Emit(t) => t.Raw? || t.Mark? || t.Line? || t.Ref? || t.Defs?
    case MacroStart => false
    case _ => true
  }

  /** After these events, a string or constant is open. */
  predicate InQuotes(w: Writer, es: seq<Event>) {
    if es == [] then w.state.Verbatim?
    else
      var e, before := es[|es| - 1], es[..|es| - 1];
      if Aside(e) || Says(e, NEWLINE) then InQuotes(w, before)
      else (Says(e, STRING) || Says(e, CONSTANT)) && !InQuotes(w, before)
  }

  /** The last of these events, but for asides, is a name or the end of a constant. */
  predicate AfterWord(w: Writer, es: seq<Event>) {
    if es == [] then w.state.NumOrId?
    else
      var e, before := es[|es| - 1], es[..|es| - 1];
      if Aside(e) then AfterWord(w, before) else IsIdent(e) || (Says(e, CONSTANT) && InQuotes(w, before))
  }

  /** The last of these events, but for asides, is a slash. */
  predicate AfterSlash(w: Writer, es: seq<Event>) {
    if es == [] then w.state.PostSlash?
    else
      var e, before := es[|es| - 1], es[..|es| - 1];
      if Aside(e) then AfterSlash(w, before) else Says(e, SLASH)
  }

  lemma WriteLast(w: Writer, es: seq<Event>)
    requires es != []
    ensures var n := |es| - 1; var w1 := WriteAll(w, es[..n]).0;
      WriteAll(w, es) == (Write(w1, es[n]).0, WriteAll(w, es[..n]).1 + Write(w1, es[n]).1)
  {
    hide Write;
    var n := |es| - 1;
    assert es == es[..n] + [es[n]];
    WriteConcat(w, es[..n], [es[n]]);
    WriteOne(WriteAll(w, es[..n]).0, es[n]);
  }

  lemma {:induction false} StateIs(w: Writer, es: seq<Event>)
    ensures var s := WriteAll(w, es).0.state;
      && (s.Verbatim? <==> InQuotes(w, es)) && (s.NumOrId? <==> AfterWord(w, es))
        && (s.PostSlash? <==> AfterSlash(w, es))
    decreases |es|
  {
    hide WriteAll, Write, Says, Aside;
    if es == [] {
      WriteOne(w, MacroEnd);
    } else {
      var n := |es| - 1;
      StateIs(w, es[..n]);
      WriteLast(w, es);
      StateAfter(WriteAll(w, es[..n]).0, es[n]);
    }
  }

  lemma StateAfter(w: Writer, e: Event)
    ensures var s := Write(w, e).0.state;
      && (s.Verbatim? <==> if Aside(e) || Says(e, NEWLINE) then w.state.Verbatim?
                           else (Says(e, STRING) || Says(e, CONSTANT)) && !w.state.Verbatim?)
      && (s.NumOrId? <==> if Aside(e) then w.state.NumOrId? else IsIdent(e) || (Says(e, CONSTANT) && w.state.Verbatim?))
      && (s.PostSlash? <==> if Aside(e) then w.state.PostSlash? else Says(e, SLASH))
  {
  }

  /** Where blanks are put: before a name or constant exactly if it follows a name or constant, and before an asterisk
      exactly if it follows a slash. */
  lemma BlankIff(w: Writer, before: seq<Event>, e: Event, after: seq<Event>)
    ensures var out, k := WriteAll(w, before + [e] + after).1, |WriteAll(w, before).1|;
      && k <= |out| && out[..k] == WriteAll(w, before).1
      && (IsIdent(e) ==>
            var gap: seq<Effect> := if AfterWord(w, before) then [Put(BLANK)] else [];
            |out| > k + |gap| && out[k..k + |gap| + 1] == gap + [Name(e.token.n)])
      && (Says(e, CONSTANT) && !InQuotes(w, before) ==>
            var gap: seq<Effect> := if AfterWord(w, before) then [Put(BLANK)] else [];
            |out| >= k + |gap| && out[k..] == gap + WriteAll(Writer(Verbatim, WriteAll(w, before).0.protect), after).1)
      && (Says(e, STAR) ==>
            var gap: seq<Effect> := if AfterSlash(w, before) then [Put(BLANK)] else [];
            |out| > k + |gap| && out[k..k + |gap| + 1] == gap + [Put(STAR)])
  {
    hide WriteAll, Write;
    var w1 := WriteAll(w, before).0;
    StateIs(w, before);
    WriteConcat(w, before + [e], after);
    WriteConcat(w, before, [e]);
    WriteOne(w1, e);
    var own, rest := Write(w1, e).1, WriteAll(Write(w1, e).0, after).1;
    assert WriteAll(w, before + [e] + after).1 == WriteAll(w, before).1 + (own + rest);
    OwnEffects(w1, e);
  }

  lemma OwnEffects(w: Writer, e: Event)
    ensures IsIdent(e) ==> Write(w, e).1 == (if w.state.NumOrId? then [Put(BLANK)] else []) + [Name(e.token.n)]
    ensures Says(e, CONSTANT) && !w.state.Verbatim? ==>
              Write(w, e) == (w.(state := Verbatim), if w.state.NumOrId? then [Put(BLANK)] else [])
    ensures Says(e, STAR) ==> Write(w, e).1 == (if w.state.PostSlash? then [Put(BLANK)] else []) + [Put(STAR)]
  {
  }

  // ---------- what never stands together ----------

  /** Writes nothing and has no effect on the spacing. */
  predicate Mute(e: Event) {
    e.Emit? && (e.token.Ref? || e.token.Defs?)
  }

  /** Puts what follows directly after what comes before: JOIN, and the bounds of a string or constant. */
  predicate Glue(e: Event) {
    Says(e, JOIN) || Says(e, STRING) || Says(e, CONSTANT)
  }

  predicate GlueIn(es: seq<Event>) {
    exists i :: 0 <= i < |es| && Glue(es[i])
  }

  /** Two effects that make one word, or start a comment. */
  predicate Clash(a: Effect, b: Effect) {
    (a.Name? && b.Name?) || (a == Put(SLASH) && b == Put(STAR))
  }

  /** The event writes the first, the second part of such a pair. */
  predicate Makes(e: Event, f: Effect) {
    (IsIdent(e) && f == Name(e.token.n)) || (Says(e, SLASH) && f == Put(SLASH)) || (Says(e, STAR) && f == Put(STAR))
  }

  /** The number of events up to the last one that is neither mute nor glue. */
  function Sounding(es: seq<Event>): (n: nat)
    ensures n <= |es|
  {
    if es == [] then 0
    else if Mute(es[|es| - 1]) || Glue(es[|es| - 1]) then Sounding(es[..|es| - 1]) else |es|
  }

  predicate Opens(f: Effect) {
    f.Name? || f == Put(SLASH)
  }

  /** If the output ends in a name or slash, an event wrote it after which everything is mute or glue; without glue the
      writer knows. */
  lemma {:induction false} EndsIn(w: Writer, es: seq<Event>)
    ensures var out, n, s := WriteAll(w, es).1, Sounding(es), WriteAll(w, es).0.state;
      out != [] && Opens(out[|out| - 1]) ==>
        && n > 0 && Makes(es[n - 1], out[|out| - 1])
        && (GlueIn(es[n..]) || (if IsIdent(es[n - 1]) then s.NumOrId? else s.PostSlash?))
    decreases |es|
  {
    hide WriteAll, Write, Opens, Makes, Mute, Glue, GlueIn;
    if es == [] {
      WriteOne(w, MacroEnd);
    } else {
      var k := |es| - 1;
      var before, e := es[..k], es[k];
      EndsIn(w, before);
      WriteLast(w, es);
      LastOfOne(WriteAll(w, before).0, e);
      BlankOpens();
      if Mute(e) || Glue(e) {
        var tail := before[Sounding(es)..];
        assert es[Sounding(es)..] == tail + [e];
        GlueAfter(tail, e);
      }
    }
  }

  lemma BlankOpens()
    ensures !Opens(Put(BLANK))
  {
  }

  lemma GlueAfter(es: seq<Event>, e: Event)
    ensures GlueIn(es + [e]) <==> GlueIn(es) || Glue(e)
  {
    var all := es + [e];
    assert all[|es|] == e;
    assert forall i :: 0 <= i < |es| ==> all[i] == es[i];
  }

  lemma LastOfOne(w: Writer, e: Event)
    ensures var fs, s := Write(w, e).1, Write(w, e).0.state;
      && (Mute(e) ==> Write(w, e) == (w, []))
      && (Glue(e) ==> |fs| == 0 || (|fs| == 1 && fs[0] == Put(BLANK)))
      && (!Mute(e) && !Glue(e) ==> fs != [])
      && (fs != [] && Opens(fs[|fs| - 1]) ==> Makes(e, fs[|fs| - 1]) && if IsIdent(e) then s.NumOrId? else s.PostSlash?)
  {
    hide Write;
    if e.Emit? && (e.token.Char? || e.token.Delim?) {
      LastOfChar(w, if e.token.Char? then e.token.c else e.token.d);
      WriteCode(w, e);
    } else {
      LastOfOther(w, e);
    }
  }

  lemma WriteCode(w: Writer, e: Event)
    requires e.Emit? && (e.token.Char? || e.token.Delim?)
    ensures Write(w, e) == WriteChar(w, if e.token.Char? then e.token.c else e.token.d)
  {
    hide WriteChar;
  }

  lemma LastOfChar(w: Writer, c: Byte)
    ensures var fs, s := WriteChar(w, c).1, WriteChar(w, c).0.state;
      && (c == JOIN || c == STRING || c == CONSTANT ==> |fs| == 0 || (|fs| == 1 && fs[0] == Put(BLANK)))
      && (c != JOIN && c != STRING && c != CONSTANT ==> fs != [])
      && (fs != [] && Opens(fs[|fs| - 1]) ==> c == SLASH && fs[|fs| - 1] == Put(SLASH) && s.PostSlash?)
  {
  }

  lemma LastOfOther(w: Writer, e: Event)
    requires !(e.Emit? && (e.token.Char? || e.token.Delim?))
    ensures var fs, s := Write(w, e).1, Write(w, e).0.state;
      && (Mute(e) ==> Write(w, e) == (w, []))
      && (!Mute(e) ==> fs != [])
      && (fs != [] && Opens(fs[|fs| - 1]) ==> IsIdent(e) && Makes(e, fs[|fs| - 1]) && s.NumOrId?)
  {
    hide WriteChar;
  }

  /** Inside of what one event writes nothing clashes; if its beginning clashes with what comes before, the writer did
      not know that. */
  lemma FirstOfOne(w: Writer, e: Event, f: Effect)
    ensures var fs := Write(w, e).1;
      && (forall k :: 0 < k < |fs| ==> !Clash(fs[k - 1], fs[k]))
      && (fs != [] && Clash(f, fs[0]) ==> Makes(e, fs[0]) && if f.Name? then !w.state.NumOrId? else !w.state.PostSlash?)
  {
  }

  /** Two names are never written together, and a slash never directly before an asterisk, unless there is a JOIN or the
      bound of a string or constant between them. */
  lemma {:induction false} NothingClashes(w: Writer, es: seq<Event>, k: nat)
    requires 0 < k < |WriteAll(w, es).1| && Clash(WriteAll(w, es).1[k - 1], WriteAll(w, es).1[k])
    ensures var out := WriteAll(w, es).1;
      exists i: nat, j: nat :: i < j < |es| && Makes(es[i], out[k - 1]) && Makes(es[j], out[k]) && GlueIn(es[i + 1..j])
    decreases |es|
  {
    hide WriteAll, Write, Clash;
    if es == [] {
      WriteOne(w, MacroEnd);
    } else {
      var n := |es| - 1;
      var before, e, out := es[..n], es[n], WriteAll(w, es).1;
      var w1, done := WriteAll(w, before).0, WriteAll(w, before).1;
      WriteLast(w, es);
      FirstOfOne(w1, e, out[k - 1]);
      if k < |done| {
        NothingClashes(w, before, k);
        var i: nat, j: nat :| i < j < n && Makes(before[i], out[k - 1]) && Makes(before[j], out[k])
            && GlueIn(before[i + 1..j]);
        assert before[i + 1..j] == es[i + 1..j];
      } else if k == |done| {
        Clashing(out[k - 1], out[k]);
        EndsIn(w, before);
        var i := Sounding(before) - 1;
        assert before[i + 1..] == es[i + 1..n];
        assert Makes(es[i], out[k - 1]) && Makes(es[n], out[k]);
      }
    }
  }

  lemma Clashing(a: Effect, b: Effect)
    requires Clash(a, b)
    ensures Opens(a)
  {
  }
}
