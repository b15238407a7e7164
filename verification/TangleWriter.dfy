/** The output routine of CTANGLE: how tokens become characters, with blanks only where C needs them. */
module TangleWriter {
  import opened Bytes
  import opened TangleTokens
  import opened TangleExpansion

  datatype OutState = Normal | NumOrId | PostSlash | Unbreakable | Verbatim

  datatype Writer = Writer(state: OutState, protect: bool)

  /** What is written: characters, characters of a string or constant that are copied as they stand, the spelling of a
      name, the comments that start and end a section, `#line`, the start of a definition; the error message that a
      section is not present; and the change to another output file. */
  datatype Effect =
    | Put(c: Byte) | Copy(c: Byte) | Name(n: nat) | Start(n: nat) | End(n: nat) | LineMark(line: nat,
        file: nat) | Define
    | Complain(n: nat) | NewFile(n: nat)

  const BACKSLASH: Byte := 92
  const SLASH: Byte := 47
  const STAR: Byte := 42
  const EQUALS: Byte := 61

  /** The spelling of operators that are one code; nothing for other codes. */
  function Operator(c: Byte): (fs: seq<Effect>)
    ensures forall i :: 0 <= i < |fs| ==> fs[i].Put?
  {
    match c
    case 11 => [Put(43), Put(43)]
    case 1 => [Put(45), Put(45)]
    case 25 => [Put(45), Put(62)]
    case 17 => [Put(62), Put(62)]
    case 30 => [Put(61), Put(61)]
    case 16 => [Put(60), Put(60)]
    case 29 => [Put(62), Put(61)]
    case 28 => [Put(60), Put(61)]
    case 26 => [Put(33), Put(61)]
    case 4 => [Put(38), Put(38)]
    case 31 => [Put(124), Put(124)]
    case 14 => [Put(46), Put(46), Put(46)]
    case 6 => [Put(58), Put(58)]
    case 22 => [Put(46), Put(42)]
    case 23 => [Put(45), Put(62), Put(42)]
    case _ => []
  }

  function Gap(w: Writer): seq<Effect> {
    if w.state.NumOrId? then [Put(BLANK)] else []
  }

  function WriteChar(w: Writer, c: Byte): (r: (Writer, seq<Effect>))
    ensures forall i :: 0 <= i < |r.1| ==> r.1[i].Put?
  {
    if c == NEWLINE then
      (if w.state.Verbatim? then w else w.(state := Normal),
       (if w.protect then [Put(BLANK)] else [])
       + (if w.protect || w.state.Verbatim? then [Put(BACKSLASH)] else []) + [Put(NEWLINE)])
    else if Operator(c) != [] then (w.(state := Normal), Operator(c))
    else if c == EQUALS then (w.(state := Normal), [Put(EQUALS), Put(BLANK)])
    else if c == JOIN then (w.(state := Unbreakable), [])
    else if c == CONSTANT then
      if w.state.Verbatim? then (w.(state := NumOrId), []) else (w.(state := Verbatim), Gap(w))
    else if c == STRING then (w.(state := if w.state.Verbatim? then Normal else Verbatim), [])
    else if c == SLASH then (w.(state := PostSlash), [Put(SLASH)])
    else (w.(state := Normal), (if c == STAR && w.state.PostSlash? then [Put(BLANK)] else []) + [Put(c)])
  }

  function Write(w: Writer, e: Event): (r: (Writer, seq<Effect>)) {
    match e
    case Emit(t) => WriteToken(w, t)
    case Close(n) => (w, [End(n)])
    case Missing(n) => (w, [Complain(n)])
    case MacroStart => (Writer(Normal, true), [Define])
    case MacroEnd => (w.(protect := false), [Put(NEWLINE)])
    case FileStart(n) => (w, [NewFile(n)])
    case FileEnd => (w, [Put(NEWLINE)])
  }

  function WriteToken(w: Writer, t: Token): (r: (Writer, seq<Effect>)) {
    match t
    case Char(c) => WriteChar(w, c)
    case Delim(d) => WriteChar(w, d)
    case Raw(c) => (w, [Copy(c)])
    case Ident(n) => (w.(state := NumOrId), Gap(w) + [Name(n)])
    case Mark(n) => (w, [Start(n)])
    case Line(line, file) => (w, [LineMark(line, file)])
    case Ref(_) => (w, [])
    case Defs => (w, [])
  }

  function WriteAll(w: Writer, es: seq<Event>): (r: (Writer, seq<Effect>))
    decreases |es|
  {
    if es == [] then (w, [])
    else
      var first := Write(w, es[0]);
      var rest := WriteAll(first.0, es[1..]);
      (rest.0, first.1 + rest.1)
  }

  lemma {:induction false} WriteConcat(w: Writer, a: seq<Event>, b: seq<Event>)
    ensures WriteAll(w, a + b) == (WriteAll(WriteAll(w, a).0, b).0, WriteAll(w, a).1 + WriteAll(WriteAll(w, a).0, b).1)
    decreases |a|
  {
    hide Write;
    if a == [] {
      assert a + b == b;
      assert [] + WriteAll(w, b).1 == WriteAll(w, b).1;
    } else {
      assert (a + b)[0] == a[0] && (a + b)[1..] == a[1..] + b;
      var w1 := Write(w, a[0]).0;
      WriteConcat(w1, a[1..], b);
      var w2 := WriteAll(w1, a[1..]).0;
      assert Write(w, a[0]).1 + (WriteAll(w1, a[1..]).1 + WriteAll(w2, b).1)
          == Write(w, a[0]).1 + WriteAll(w1, a[1..]).1 + WriteAll(w2, b).1;
    }
  }

  lemma WriteOne(w: Writer, e: Event)
    ensures WriteAll(w, [e]) == Write(w, e) && WriteAll(w, []) == (w, [])
  {
    hide Write;
    var one: seq<Event> := [e];
    assert one[1..] == [];
    assert Write(w, e).1 + [] == Write(w, e).1;
  }

  /** The writer knows whether the next byte is inside a string or constant. */
  lemma VerbatimFollows(w: Writer, t: Token)
    requires Fits(t, w.state.Verbatim?)
    ensures Write(w, Emit(t)).0.state.Verbatim? == After(t, w.state.Verbatim?)
  {
  }

  // ---------- section numbers in the output ----------

  /** The section numbers that are open after what has been written. */
  function NestWritten(fs: seq<Effect>, open: seq<nat>): Open {
    if fs == [] then Opened(open)
    else if fs[0].Start? then NestWritten(fs[1..], [fs[0].n] + open)
    else if fs[0].End? then
      if open != [] && open[0] == fs[0].n then NestWritten(fs[1..], open[1..]) else Broken
    else NestWritten(fs[1..], open)
  }

  lemma {:induction false} NestAfter(a: seq<Effect>, b: seq<Effect>, open: seq<nat>)
    requires forall i :: 0 <= i < |a| ==> !a[i].Start? && !a[i].End?
    ensures NestWritten(a + b, open) == NestWritten(b, open)
  {
    if a == [] {
      assert a + b == b;
    } else {
      assert (a + b)[0] == a[0] && (a + b)[1..] == a[1..] + b;
      NestAfter(a[1..], b, open);
    }
  }

  /** Writing neither adds nor loses a section number. */
  lemma {:induction false} WrittenNests(w: Writer, es: seq<Event>, open: seq<nat>)
    ensures NestWritten(WriteAll(w, es).1, open) == Nest(es, open)
    decreases |es|
  {
    if es != [] {
      var first := Write(w, es[0]);
      var rest := WriteAll(first.0, es[1..]).1;
      if es[0].Emit? && es[0].token.Mark? {
        assert ([Start(es[0].token.n)] + rest)[1..] == rest;
        WrittenNests(first.0, es[1..], [es[0].token.n] + open);
      } else if es[0].Close? {
        assert ([End(es[0].n)] + rest)[1..] == rest;
        if open != [] {
          WrittenNests(first.0, es[1..], open[1..]);
        }
      } else {
        OtherEffects(w, es[0]);
        NestAfter(first.1, rest, open);
        WrittenNests(first.0, es[1..], open);
      }
    }
  }

  lemma OtherEffects(w: Writer, e: Event)
    requires !(e.Emit? && e.token.Mark?) && !e.Close?
    ensures forall i :: 0 <= i < |Write(w, e).1| ==> !Write(w, e).1[i].Start? && !Write(w, e).1[i].End?
  {
    hide WriteChar;
  }
}
