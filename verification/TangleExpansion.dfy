/** What CTANGLE writes, as functions of the replacement texts: sections are expanded in place, each with all its
    texts. */
module TangleExpansion {
  import opened Bytes
  import opened TangleTokens

  /** The `text_link` of the last text of a section. */
  const SECTION_FLAG: nat := 2500

  /** The replacement texts, their links, and the first text of every named section (0 if there is none). */
  datatype Table = Table(texts: seq<seq<Token>>, link: seq<nat>, equiv: seq<nat>) {

    /** A link leads to a later text that also belongs to a section. */
    predicate IsNext(t: nat, l: nat)
      requires |link| == |texts|
    {
      t < l < |texts| && link[l] != 0
    }

    ghost predicate Ok() {
      && |link| == |texts| && 1 <= |texts| <= SECTION_FLAG && texts[0] == []
      && (link[0] == 0 || IsNext(0, link[0]))
      && (forall t :: 0 < t < |texts| ==> link[t] == 0 || link[t] == SECTION_FLAG || IsNext(t, link[t]))
      && (forall t :: 0 <= t < |texts| ==> WellFormed(texts[t], false) && RefsIn(texts[t]))
      && (forall n :: 0 <= n < |equiv| ==> equiv[n] < |texts| && (equiv[n] != 0 ==> link[equiv[n]] != 0))
    }

    /** The section names in a text are known. */
    predicate RefsIn(ts: seq<Token>) {
      forall i :: 0 <= i < |ts| && ts[i].Ref? ==> ts[i].n < |equiv|
    }

    /** Whether the links from `t` lead to the last text of a section. Text 0 is empty; it stands for the unnamed
        section and is linked to its first text. */
    predicate Live(t: nat)
      requires |link| == |texts|
    {
      t < |texts| && link[t] != 0
    }

    /** Whether `t` is a text of a section. */
    predicate Sectional(t: nat)
      requires |link| == |texts|
    {
      0 < t && Live(t)
    }
  }

  /** What is sent to the output routine, with macro definitions around their texts, and files around theirs. */
  datatype Event =
    | Emit(token: Token) | Close(n: nat) | Missing(n: nat) | MacroStart | MacroEnd | FileStart(n: nat) | FileEnd

  /** The events up to the end, or up to a fatal error. */
  datatype Output = Output(events: seq<Event>, ok: bool)

  function Done(): Output {
    Output([], true)
  }

  function Fatal(): Output {
    Output([], false)
  }

  function One(e: Event): Output {
    Output([e], true)
  }

  function Then(a: Output, b: Output): Output {
    if a.ok then Output(a.events + b.events, b.ok) else a
  }

  lemma ThenAssoc(a: Output, b: Output, c: Output)
    ensures Then(Then(a, b), c) == Then(a, Then(b, c))
    ensures Then(Done(), a) == a && Then(a, Done()) == a
  {
    assert a.events + (b.events + c.events) == a.events + b.events + c.events;
  }

  // ---------- macro definitions ----------

  /** In a definition, `#line` becomes the end of a line. */
  function Protected(t: Token, protect: bool): Token {
    if protect && t.Line? then Char(NEWLINE) else t
  }

  /** The text of a macro; a section name or `@h` in it is a fatal error. */
  function MacroBody(ts: seq<Token>): Output {
    if ts == [] || ts == [Char(NEWLINE)] then Done()
    else if ts[0].Ref? || ts[0].Defs? then Fatal()
    else Then(One(Emit(Protected(ts[0], true))), MacroBody(ts[1..]))
  }

  /** The definitions from text `t` on. */
  function Macros(tb: Table, t: nat): Output
    requires |tb.link| == |tb.texts| && t <= |tb.texts|
    decreases |tb.texts| - t
  {
    if t == |tb.texts| then Done()
    else if tb.link[t] != 0 then Macros(tb, t + 1)
    else Then(One(MacroStart), Then(MacroBody(tb.texts[t]), Then(One(MacroEnd), Macros(tb, t + 1))))
  }

  // ---------- what the output routines do with the state of one level ----------

  function CloseEvents(sec: nat): Output {
    if sec == 0 then Done() else One(Close(sec))
  }

  /** What is still to come from a level whose rest of the current text `t` is `ts`, if `d` more levels fit the
      stack. */
  function Level(tb: Table, ts: seq<Token>, t: nat, sec: nat, d: nat): Output
    requires tb.Ok() && tb.Live(t) && tb.RefsIn(ts)
    decreases d, |tb.texts| - t, |ts|
  {
    if ts == [] then
      Then(CloseEvents(sec), if tb.link[t] == SECTION_FLAG then Done()
           else Level(tb, tb.texts[tb.link[t]], tb.link[t], sec, d))
    else
      assert tb.RefsIn(ts[1..]);
      match ts[0]
      case Ref(n) =>
        if tb.equiv[n] == 0 then
          Then(if n == 0 then Done() else One(Missing(n)), Level(tb, ts[1..], t, sec, d))
        else if d == 0 then Fatal()
        else Then(Level(tb, tb.texts[tb.equiv[n]], tb.equiv[n], 0, d - 1), Level(tb, ts[1..], t, sec, d))
      case Defs =>
        if d == 0 then Fatal() else Then(Macros(tb, 1), Level(tb, ts[1..], t, sec, d))
      case Mark(n) =>
        Then(One(Emit(ts[0])), Level(tb, ts[1..], t, n, d))
      case _ =>
        Then(One(Emit(ts[0])), Level(tb, ts[1..], t, sec, d))
  }

  /** A bound on the number of steps that this takes. */
  function Steps(tb: Table, ts: seq<Token>, t: nat, d: nat): (n: nat)
    requires tb.Ok() && tb.Live(t) && tb.RefsIn(ts)
    ensures n > 0
    decreases d, |tb.texts| - t, |ts|
  {
    if ts == [] then
      1 + if tb.link[t] == SECTION_FLAG then 0 else Steps(tb, tb.texts[tb.link[t]], tb.link[t], d)
    else
      assert tb.RefsIn(ts[1..]);
      1 + Steps(tb, ts[1..], t, d)
      + if ts[0].Ref? && tb.equiv[ts[0].n] != 0 && d > 0
        then Steps(tb, tb.texts[tb.equiv[ts[0].n]], tb.equiv[ts[0].n], d - 1) else 0
  }

  // ---------- the same as an expansion of sections ----------

  /** The texts of a section from text `t` on. */
  function Chain(tb: Table, t: nat): (c: seq<nat>)
    requires tb.Ok() && tb.Sectional(t)
    ensures c != [] && c[0] == t && forall i :: 0 <= i < |c| ==> tb.Sectional(c[i])
    decreases |tb.texts| - t
  {
    [t] + if tb.link[t] == SECTION_FLAG then [] else Chain(tb, tb.link[t])
  }

  /** The texts of section `n`, in the order in which they were defined. */
  function TextsOf(tb: Table, n: nat): (c: seq<nat>)
    requires tb.Ok() && n < |tb.equiv|
    ensures forall i :: 0 <= i < |c| ==> tb.Sectional(c[i])
  {
    if tb.equiv[n] == 0 then [] else Chain(tb, tb.equiv[n])
  }

  /** Every text of a section starts with the number of the section that it was defined in, and has no other such
      number. */
  predicate Numbered(ts: seq<Token>) {
    && ts != [] && ts[0].Mark? && ts[0].n > 0 && NoMarks(ts[1..])
  }

  predicate NoMarks(ts: seq<Token>) {
    forall i :: 0 <= i < |ts| ==> !ts[i].Mark?
  }

  /** The table as `scan_section` makes it. */
  ghost predicate Scanned(tb: Table) {
    && tb.Ok()
    && forall t :: 0 < t < |tb.texts| ==> if tb.link[t] == 0 then NoMarks(tb.texts[t]) else Numbered(tb.texts[t])
  }

  /** A text, with the sections that it names put in their places. */
  function Body(tb: Table, ts: seq<Token>, d: nat): Output
    requires Scanned(tb) && tb.RefsIn(ts)
    decreases d, 0, |ts|
  {
    if ts == [] then Done()
    else
      assert tb.RefsIn(ts[1..]);
      var first :=
        match ts[0]
        case Ref(n) =>
          if TextsOf(tb, n) == [] then if n == 0 then Done() else One(Missing(n))
          else if d == 0 then Fatal()
          else Section(tb, TextsOf(tb, n), d - 1)
        case Defs => if d == 0 then Fatal() else Macros(tb, 1)
        case _ => One(Emit(ts[0]));
      Then(first, Body(tb, ts[1..], d))
  }

  /** The texts of a section one after the other, each closed with its number. */
  function Section(tb: Table, c: seq<nat>, d: nat): Output
    requires Scanned(tb) && forall i :: 0 <= i < |c| ==> tb.Sectional(c[i])
    decreases d, 1, |c|
  {
    if c == [] then Done()
    else
      assert tb.Sectional(c[0]);
      Then(Body(tb, tb.texts[c[0]], d), Then(One(Close(tb.texts[c[0]][0].n)), Section(tb, c[1..], d)))
  }

  /** The rest of a level: the rest of the text, its end, and the other texts of the section. */
  function Remaining(tb: Table, ts: seq<Token>, t: nat, sec: nat, d: nat): Output
    requires Scanned(tb) && tb.Sectional(t) && tb.RefsIn(ts)
  {
    Then(Body(tb, ts, d), Then(One(Close(sec)), Section(tb, Chain(tb, t)[1..], d)))
  }

  /** The output routines expand sections: what a level still gives is the rest of its text and of its section. */
  lemma {:induction false} LevelExpands(tb: Table, ts: seq<Token>, t: nat, sec: nat, d: nat)
    requires Scanned(tb) && tb.Sectional(t) && tb.RefsIn(ts) && NoMarks(ts) && sec > 0
    ensures Level(tb, ts, t, sec, d) == Remaining(tb, ts, t, sec, d)
    decreases d, |tb.texts| - t, |ts|, 0
  {
    hide Level, Remaining, Section, Chain;
    if ts == [] {
      if tb.link[t] != SECTION_FLAG {
        TextExpands(tb, tb.link[t], sec, d);
      }
      EndExpands(tb, t, sec, d);
    } else {
      assert tb.RefsIn(ts[1..]) && NoMarks(ts[1..]);
      LevelExpands(tb, ts[1..], t, sec, d);
      if ts[0].Ref? && tb.equiv[ts[0].n] != 0 && d > 0 {
        TextExpands(tb, tb.equiv[ts[0].n], 0, d - 1);
      }
      TokenExpands(tb, ts, t, sec, d);
    }
  }

  lemma EndExpands(tb: Table, t: nat, sec: nat, d: nat)
    requires Scanned(tb) && tb.Sectional(t) && sec > 0
    requires var u := tb.link[t];
      u != SECTION_FLAG ==> tb.Sectional(u) && Level(tb, tb.texts[u], u, sec, d) == Section(tb, Chain(tb, u), d)
    ensures Level(tb, [], t, sec, d) == Remaining(tb, [], t, sec, d)
  {
    ThenAssoc(One(Close(sec)), Done(), Done());
    ThenAssoc(Then(One(Close(sec)), Section(tb, Chain(tb, t)[1..], d)), Done(), Done());
    if tb.link[t] == SECTION_FLAG {
      assert Chain(tb, t)[1..] == [];
    } else {
      assert Chain(tb, t)[1..] == Chain(tb, tb.link[t]);
    }
  }

  lemma TokenExpands(tb: Table, ts: seq<Token>, t: nat, sec: nat, d: nat)
    requires Scanned(tb) && tb.Sectional(t) && ts != [] && tb.RefsIn(ts) && NoMarks(ts) && tb.RefsIn(ts[1..])
    requires Level(tb, ts[1..], t, sec, d) == Remaining(tb, ts[1..], t, sec, d)
    requires ts[0].Ref? && tb.equiv[ts[0].n] != 0 && d > 0 ==>
               var u := tb.equiv[ts[0].n];
               tb.Live(u) && Level(tb, tb.texts[u], u, 0, d - 1) == Section(tb, TextsOf(tb, ts[0].n), d - 1)
    ensures Level(tb, ts, t, sec, d) == Remaining(tb, ts, t, sec, d)
  {
    hide Macros, Section, Chain;
    var tail := Then(One(Close(sec)), Section(tb, Chain(tb, t)[1..], d));
    var body := Body(tb, ts[1..], d);
    if ts[0].Ref? {
      var n := ts[0].n;
      if tb.equiv[n] == 0 {
        ThenAssoc(if n == 0 then Done() else One(Missing(n)), body, tail);
      } else if d > 0 {
        ThenAssoc(Section(tb, TextsOf(tb, n), d - 1), body, tail);
      }
    } else if ts[0].Defs? {
      ThenAssoc(Macros(tb, 1), body, tail);
    } else {
      ThenAssoc(One(Emit(ts[0])), body, tail);
    }
  }

  /** From the start of a text on. */
  lemma {:induction false} TextExpands(tb: Table, t: nat, sec: nat, d: nat)
    requires Scanned(tb) && tb.Sectional(t)
    ensures Level(tb, tb.texts[t], t, sec, d) == Section(tb, Chain(tb, t), d)
    decreases d, |tb.texts| - t, |tb.texts[t]|, 1
  {
    var ts := tb.texts[t];
    assert tb.RefsIn(ts[1..]) && NoMarks(ts[1..]);
    LevelExpands(tb, ts[1..], t, ts[0].n, d);
    ThenAssoc(One(Emit(ts[0])), Body(tb, ts[1..], d), Then(One(Close(ts[0].n)), Section(tb, Chain(tb, t)[1..], d)));
  }

  // ---------- section numbers are nested ----------

  /** The section numbers that are open after some events; nothing, if they are not properly nested. */
  datatype Open = Broken | Opened(numbers: seq<nat>)

  function Nest(es: seq<Event>, open: seq<nat>): Open {
    if es == [] then Opened(open)
    else if es[0].Emit? && es[0].token.Mark? then Nest(es[1..], [es[0].token.n] + open)
    else if es[0].Close? then
      if open != [] && open[0] == es[0].n then Nest(es[1..], open[1..]) else Broken
    else Nest(es[1..], open)
  }

  lemma {:induction false} NestConcat(a: seq<Event>, b: seq<Event>, open: seq<nat>)
    requires Nest(a, open).Opened?
    ensures Nest(a + b, open) == Nest(b, Nest(a, open).numbers)
  {
    if a == [] {
      assert a + b == b;
    } else {
      assert (a + b)[0] == a[0] && (a + b)[1..] == a[1..] + b;
      if a[0].Emit? && a[0].token.Mark? {
        NestConcat(a[1..], b, [a[0].token.n] + open);
      } else if a[0].Close? {
        NestConcat(a[1..], b, open[1..]);
      } else {
        NestConcat(a[1..], b, open);
      }
    }
  }

  /** Some output leaves the numbers `after` open, or was cut off with at least as many numbers open. */
  predicate Nested(o: Output, open: seq<nat>, after: seq<nat>) {
    var e := Nest(o.events, open);
    e.Opened? && if o.ok then e.numbers == after else |e.numbers| >= |after|
  }

  lemma ThenNests(a: Output, b: Output, open: seq<nat>, mid: seq<nat>, after: seq<nat>)
    requires Nested(a, open, mid) && Nested(b, mid, after) && (a.ok || |mid| >= |after|)
    ensures Nested(Then(a, b), open, after)
  {
    NestConcat(a.events, b.events, open);
  }

  lemma OneNests(e: Event, open: seq<nat>)
    ensures e.Emit? && e.token.Mark? ==> Nested(One(e), open, [e.token.n] + open)
    ensures e.Close? ==> Nested(One(e), [e.n] + open, open)
    ensures !(e.Emit? && e.token.Mark?) && !e.Close? ==> Nested(One(e), open, open)
    ensures Nested(Done(), open, open) && Nested(Fatal(), open, open)
  {
    var one: seq<Event> := [e];
    assert one[1..] == [];
    assert e.Close? ==> ([e.n] + open)[1..] == open;
  }

  lemma {:induction false} MacroBodyNests(ts: seq<Token>, open: seq<nat>)
    requires NoMarks(ts)
    ensures Nested(MacroBody(ts), open, open)
  {
    OneNests(MacroStart, open);
    if ts != [] && ts != [Char(NEWLINE)] && !ts[0].Ref? && !ts[0].Defs? {
      var e := Emit(Protected(ts[0], true));
      OneNests(e, open);
      MacroBodyNests(ts[1..], open);
      ThenNests(One(e), MacroBody(ts[1..]), open, open, open);
    }
  }

  lemma {:induction false} MacrosNest(tb: Table, t: nat, open: seq<nat>)
    requires Scanned(tb) && 0 < t <= |tb.texts|
    ensures Nested(Macros(tb, t), open, open)
    decreases |tb.texts| - t
  {
    OneNests(MacroStart, open);
    if t < |tb.texts| {
      MacrosNest(tb, t + 1, open);
      if tb.link[t] == 0 {
        OneNests(MacroEnd, open);
        MacroBodyNests(tb.texts[t], open);
        ThenNests(One(MacroEnd), Macros(tb, t + 1), open, open, open);
        ThenNests(MacroBody(tb.texts[t]), Then(One(MacroEnd), Macros(tb, t + 1)), open, open, open);
        ThenNests(One(MacroStart), Then(MacroBody(tb.texts[t]), Then(One(MacroEnd), Macros(tb, t + 1))), open, open,
                  open);
      }
    }
  }

  lemma {:induction false} BodyNests(tb: Table, ts: seq<Token>, d: nat, open: seq<nat>)
    requires Scanned(tb) && tb.RefsIn(ts) && NoMarks(ts)
    ensures Nested(Body(tb, ts, d), open, open)
    decreases d, 0, |ts|
  {
    hide Nested, Nest, TextsOf, Macros, Section;
    OneNests(MacroStart, open);
    if ts != [] {
      assert tb.RefsIn(ts[1..]) && NoMarks(ts[1..]);
      BodyNests(tb, ts[1..], d, open);
      var rest := Body(tb, ts[1..], d);
      if ts[0].Ref? && TextsOf(tb, ts[0].n) != [] {
        if d > 0 {
          SectionNests(tb, TextsOf(tb, ts[0].n), d - 1, open);
          ThenNests(Section(tb, TextsOf(tb, ts[0].n), d - 1), rest, open, open, open);
        } else {
          ThenNests(Fatal(), rest, open, open, open);
        }
      } else if ts[0].Ref? {
        OneNests(Missing(ts[0].n), open);
        ThenNests(if ts[0].n == 0 then Done() else One(Missing(ts[0].n)), rest, open, open, open);
      } else if ts[0].Defs? {
        MacrosNest(tb, 1, open);
        ThenNests(if d == 0 then Fatal() else Macros(tb, 1), rest, open, open, open);
      } else {
        OneNests(Emit(ts[0]), open);
        ThenNests(One(Emit(ts[0])), rest, open, open, open);
      }
    }
  }

  /** In the expansion of a section, the comments with section numbers are nested like parentheses, also if it is cut
      off by a fatal error. */
  lemma {:induction false} SectionNests(tb: Table, c: seq<nat>, d: nat, open: seq<nat>)
    requires Scanned(tb) && forall i :: 0 <= i < |c| ==> tb.Sectional(c[i])
    ensures Nested(Section(tb, c, d), open, open)
    decreases d, 1, |c|
  {
    hide Nested, Nest;
    OneNests(MacroStart, open);
    if c != [] {
      assert tb.Sectional(c[0]);
      var ts := tb.texts[c[0]];
      var inner := [ts[0].n] + open;
      assert tb.RefsIn(ts[1..]) && NoMarks(ts[1..]);
      SectionNests(tb, c[1..], d, open);
      OneNests(Close(ts[0].n), open);
      ThenNests(One(Close(ts[0].n)), Section(tb, c[1..], d), inner, open, open);
      OneNests(Emit(ts[0]), open);
      BodyNests(tb, ts[1..], d, inner);
      ThenNests(One(Emit(ts[0])), Body(tb, ts[1..], d), open, inner, inner);
      ThenNests(Body(tb, ts, d), Then(One(Close(ts[0].n)), Section(tb, c[1..], d)), open, inner, open);
    }
  }

  // ---------- when the nesting is too deep ----------

  /** A token of an expansion does not lead to a fatal error. */
  ghost predicate ItemOk(tb: Table, x: Token, d: nat)
    requires Scanned(tb) && (x.Ref? ==> x.n < |tb.equiv|)
  {
    match x
    case Ref(n) => TextsOf(tb, n) == [] || (d > 0 && Section(tb, TextsOf(tb, n), d - 1).ok)
    case Defs => d > 0 && Macros(tb, 1).ok
    case _ => true
  }

  lemma {:induction false} BodyOk(tb: Table, ts: seq<Token>, d: nat)
    requires Scanned(tb) && tb.RefsIn(ts)
    ensures Body(tb, ts, d).ok <==> forall i :: 0 <= i < |ts| ==> ItemOk(tb, ts[i], d)
  {
    hide TextsOf, Section, Macros;
    if ts != [] {
      assert tb.RefsIn(ts[1..]);
      BodyOk(tb, ts[1..], d);
      assert forall i :: 0 < i < |ts| ==> ts[i] == ts[1..][i - 1];
    }
  }

  lemma {:induction false} SectionOk(tb: Table, c: seq<nat>, d: nat)
    requires Scanned(tb) && forall i :: 0 <= i < |c| ==> tb.Sectional(c[i])
    ensures Section(tb, c, d).ok <==> forall i :: 0 <= i < |c| ==> Body(tb, tb.texts[c[i]], d).ok
  {
    if c != [] {
      SectionOk(tb, c[1..], d);
      assert forall i :: 0 < i < |c| ==> c[i] == c[1..][i - 1];
    }
  }

  /** The token `x` is somewhere in the texts of section `n`. */
  ghost predicate Mentions(tb: Table, n: nat, x: Token)
    requires tb.Ok() && n < |tb.equiv|
  {
    exists i :: 0 <= i < |TextsOf(tb, n)| && x in tb.texts[TextsOf(tb, n)[i]]
  }

  /** There is a way `k` levels down from section `n`, through sections that have texts and perhaps to `@h` at its
      end. */
  ghost predicate Nests(tb: Table, n: nat, k: nat)
    requires tb.Ok() && n < |tb.equiv|
    decreases k
  {
    k == 0 || exists x :: Mentions(tb, n, x) && LeadsDown(tb, x, k)
  }

  ghost predicate LeadsDown(tb: Table, x: Token, k: nat)
    requires tb.Ok() && k > 0
    decreases k, 0
  {
    (x.Defs? && k == 1) || (x.Ref? && x.n < |tb.equiv| && TextsOf(tb, x.n) != [] && Nests(tb, x.n, k - 1))
  }

  lemma MentionsIn(tb: Table, n: nat, x: Token)
    requires tb.Ok() && n < |tb.equiv| && Mentions(tb, n, x)
    ensures x.Ref? ==> x.n < |tb.equiv|
  {
  }

  /** A section can be expanded exactly if everything that it mentions can. */
  lemma ExpandsIff(tb: Table, n: nat, d: nat)
    requires Scanned(tb) && n < |tb.equiv|
    ensures Section(tb, TextsOf(tb, n), d).ok <==>
              forall x :: Mentions(tb, n, x) ==> (x.Ref? ==> x.n < |tb.equiv|) && ItemOk(tb, x, d)
  {
    var c := TextsOf(tb, n);
    SectionOk(tb, c, d);
    forall i | 0 <= i < |c|
      ensures Body(tb, tb.texts[c[i]], d).ok <==>
                forall j :: 0 <= j < |tb.texts[c[i]]| ==> ItemOk(tb, tb.texts[c[i]][j], d)
    {
      BodyOk(tb, tb.texts[c[i]], d);
    }
    if Section(tb, c, d).ok {
      forall x | Mentions(tb, n, x)
        ensures (x.Ref? ==> x.n < |tb.equiv|) && ItemOk(tb, x, d)
      {
        MentionsIn(tb, n, x);
        var i :| 0 <= i < |c| && x in tb.texts[c[i]];
        var j :| 0 <= j < |tb.texts[c[i]]| && tb.texts[c[i]][j] == x;
      }
    } else {
      var i :| 0 <= i < |c| && !Body(tb, tb.texts[c[i]], d).ok;
      var j :| 0 <= j < |tb.texts[c[i]]| && !ItemOk(tb, tb.texts[c[i]][j], d);
      assert Mentions(tb, n, tb.texts[c[i]][j]);
    }
  }

  /** There is a way from section `n` through `j` other sections that have texts to `@h`. */
  ghost predicate DefsAt(tb: Table, n: nat, j: nat)
    requires tb.Ok() && n < |tb.equiv|
    decreases j
  {
    if j == 0 then Mentions(tb, n, Defs) else exists x :: Mentions(tb, n, x) && DefsBehind(tb, x, j)
  }

  ghost predicate DefsBehind(tb: Table, x: Token, j: nat)
    requires tb.Ok() && j > 0
    decreases j, 0
  {
    x.Ref? && x.n < |tb.equiv| && TextsOf(tb, x.n) != [] && DefsAt(tb, x.n, j - 1)
  }

  ghost predicate ReachesDefs(tb: Table, n: nat)
    requires tb.Ok() && n < |tb.equiv|
  {
    exists j: nat :: DefsAt(tb, n, j)
  }

  /** A section can be expanded exactly if no way down from it is too long for the stack, and the macro definitions are
      without fault or not asked for. */
  lemma OverflowsIff(tb: Table, n: nat, d: nat)
    requires Scanned(tb) && n < |tb.equiv|
    ensures Section(tb, TextsOf(tb, n), d).ok <==> !Nests(tb, n, d + 1) && (Macros(tb, 1).ok || !ReachesDefs(tb, n))
  {
    hide Section, Macros, TextsOf, Nests, DefsAt;
    LongWaysOverflow(tb, n, d);
    if Section(tb, TextsOf(tb, n), d).ok && !Macros(tb, 1).ok {
      forall j: nat
        ensures !DefsAt(tb, n, j)
      {
        NoFaultyDefs(tb, n, d, j);
      }
    }
    if !Nests(tb, n, d + 1) && (Macros(tb, 1).ok || !ReachesDefs(tb, n)) {
      ShortWaysExpand(tb, n, d);
    }
  }

  lemma {:induction false} LongWaysOverflow(tb: Table, n: nat, d: nat)
    requires Scanned(tb) && n < |tb.equiv|
    ensures Nests(tb, n, d + 1) ==> !Section(tb, TextsOf(tb, n), d).ok
    decreases d
  {
    hide Section, Body, Macros, TextsOf, ItemOk, Mentions;
    ExpandsIff(tb, n, d);
    if Nests(tb, n, d + 1) {
      var x :| Mentions(tb, n, x) && LeadsDown(tb, x, d + 1);
      MentionsIn(tb, n, x);
      ItemIs(tb, x, d);
      if x.Ref? && d > 0 {
        LongWaysOverflow(tb, x.n, d - 1);
      }
    }
  }

  lemma ItemIs(tb: Table, x: Token, d: nat)
    requires Scanned(tb) && (x.Ref? ==> x.n < |tb.equiv|)
    ensures ItemOk(tb, x, d) <==>
              && (x.Ref? && TextsOf(tb, x.n) != [] ==> d > 0 && Section(tb, TextsOf(tb, x.n), d - 1).ok)
              && (x.Defs? ==> d > 0 && Macros(tb, 1).ok)
  {
    hide Section, Macros, TextsOf;
  }

  lemma WayToDefs(tb: Table, n: nat, j: nat) returns (x: Token)
    requires tb.Ok() && n < |tb.equiv| && DefsAt(tb, n, j)
    ensures Mentions(tb, n, x) && if j == 0 then x == Defs else DefsBehind(tb, x, j)
  {
    hide Mentions, TextsOf;
    if j == 0 {
      x := Defs;
    } else {
      x :| Mentions(tb, n, x) && DefsBehind(tb, x, j);
    }
  }

  lemma {:induction false} NoFaultyDefs(tb: Table, n: nat, d: nat, j: nat)
    requires Scanned(tb) && n < |tb.equiv| && Section(tb, TextsOf(tb, n), d).ok && !Macros(tb, 1).ok
    ensures !DefsAt(tb, n, j)
    decreases j
  {
    hide Section, Body, Macros, TextsOf, ItemOk, Mentions, DefsAt;
    ExpandsIff(tb, n, d);
    if DefsAt(tb, n, j) {
      var x := WayToDefs(tb, n, j);
      ItemIs(tb, x, d);
      if j > 0 {
        NoFaultyDefs(tb, x.n, d - 1, j - 1);
      }
    }
  }

  lemma {:induction false} ShortWaysExpand(tb: Table, n: nat, d: nat)
    requires Scanned(tb) && n < |tb.equiv| && !Nests(tb, n, d + 1) && (Macros(tb, 1).ok || !ReachesDefs(tb, n))
    ensures Section(tb, TextsOf(tb, n), d).ok
    decreases d
  {
    hide Section, Body, Macros, TextsOf, ItemOk, Mentions, ReachesDefs, DefsAt;
    ExpandsIff(tb, n, d);
    forall x | Mentions(tb, n, x)
      ensures (x.Ref? ==> x.n < |tb.equiv|) && ItemOk(tb, x, d)
    {
      MentionsIn(tb, n, x);
      assert !LeadsDown(tb, x, d + 1);
      ItemIs(tb, x, d);
      if x.Defs? {
        DefsHere(tb, n);
      } else if x.Ref? && TextsOf(tb, x.n) != [] && d > 0 {
        if !Macros(tb, 1).ok {
          DefsFurther(tb, n, x);
        }
        ShortWaysExpand(tb, x.n, d - 1);
      }
    }
  }

  lemma DefsHere(tb: Table, n: nat)
    requires tb.Ok() && n < |tb.equiv| && Mentions(tb, n, Defs)
    ensures ReachesDefs(tb, n)
  {
    assert DefsAt(tb, n, 0);
  }

  lemma DefsFurther(tb: Table, n: nat, x: Token)
    requires tb.Ok() && n < |tb.equiv| && Mentions(tb, n, x) && x.Ref? && x.n < |tb.equiv| && TextsOf(tb, x.n) != []
    ensures ReachesDefs(tb, x.n) ==> ReachesDefs(tb, n)
  {
    hide Mentions, TextsOf;
    if ReachesDefs(tb, x.n) {
      var j: nat :| DefsAt(tb, x.n, j);
      assert DefsBehind(tb, x, j + 1);
      assert DefsAt(tb, n, j + 1);
    }
  }

  /** The section names in `s` have texts, and each of them mentions one of them. */
  ghost predicate Circle(tb: Table, s: set<nat>)
    requires tb.Ok()
  {
    forall m :: m in s ==> m < |tb.equiv| && TextsOf(tb, m) != [] && MentionsOne(tb, m, s)
  }

  ghost predicate MentionsOne(tb: Table, m: nat, s: set<nat>)
    requires tb.Ok() && m < |tb.equiv|
  {
    exists k :: k in s && Mentions(tb, m, Ref(k))
  }

  /** Sections that name each other in a circle cannot be expanded, whatever the size of the stack. */
  lemma CirclesOverflow(tb: Table, s: set<nat>, n: nat, d: nat)
    requires Scanned(tb) && n in s && Circle(tb, s)
    ensures !Section(tb, TextsOf(tb, n), d).ok
  {
    CirclesNest(tb, s, n, d + 1);
    OverflowsIff(tb, n, d);
  }

  lemma {:induction false} CirclesNest(tb: Table, s: set<nat>, n: nat, k: nat)
    requires tb.Ok() && n in s && Circle(tb, s)
    ensures Nests(tb, n, k)
    decreases k
  {
    hide Mentions, TextsOf;
    if k > 0 {
      assert MentionsOne(tb, n, s);
      var m :| m in s && Mentions(tb, n, Ref(m));
      CirclesNest(tb, s, m, k - 1);
      assert LeadsDown(tb, Ref(m), k);
    }
  }
}
