/** The stack machine of CTANGLE as a value: what is still to be written from a state of the stack, and what one step
    takes away from it. */
module TangleMachine {
  import opened Bytes
  import opened TangleTokens
  import opened TangleExpansion

  /** The number of entries of the stack that can be in use. */
  const STACK_SIZE: nat := 50

  /** An `output_state`. */
  datatype Frame = Frame(end: nat, byte: nat, name: nat, repl: nat, section: nat)

  /** The token memory, and where each text starts in it. */
  datatype Memory = Memory(mem: seq<Byte>, starts: seq<nat>, table: Table) {

    ghost predicate Ok() {
      && table.Ok() && |starts| == |table.texts| + 1
      && (forall i, j :: 0 <= i <= j < |starts| ==> starts[i] <= starts[j] <= |mem|) && starts[|table.texts|] == |mem|
      && forall t :: 0 <= t < |table.texts| ==> Stored(t)
    }

    ghost predicate Stored(t: nat)
      requires t < |table.texts|
    {
      && t + 1 < |starts| && starts[t] <= starts[t + 1] <= |mem| && WellFormed(table.texts[t], false)
      && mem[starts[t]..starts[t + 1]] == Encode(table.texts[t], false)
    }
  }

  /** The stack: `cur` is `cur_state`, and `saved` are the entries from the second one on; `verb` tells whether the next
      byte is inside a string or constant. */
  datatype Run = Halted | Running(cur: Frame, saved: seq<Frame>, verb: bool)

  predicate InText(m: Memory, f: Frame) {
    && f.byte <= f.end <= |m.mem| && |m.table.link| == |m.table.texts| && m.table.Live(f.repl)
    && f.repl + 1 < |m.starts| && f.end == m.starts[f.repl + 1]
  }

  function Rest(m: Memory, f: Frame, verb: bool): Decoding
    requires InText(m, f)
  {
    Decode(m.mem[f.byte..f.end], verb)
  }

  predicate FrameOk(m: Memory, f: Frame, verb: bool) {
    InText(m, f) && Rest(m, f, verb).Decoded? && m.table.RefsIn(Rest(m, f, verb).tokens)
  }

  ghost predicate RunOk(m: Memory, r: Run) {
    r.Running? ==>
      && FrameOk(m, r.cur, r.verb) && |r.saved| < STACK_SIZE
      && forall i :: 0 <= i < |r.saved| ==> FrameOk(m, r.saved[i], false)
  }

  ghost function FrameOutput(m: Memory, f: Frame, verb: bool, d: nat): Output
    requires m.Ok() && FrameOk(m, f, verb)
  {
    Level(m.table, Rest(m, f, verb).tokens, f.repl, f.section, d)
  }

  ghost function FrameSteps(m: Memory, f: Frame, verb: bool, d: nat): nat
    requires m.Ok() && FrameOk(m, f, verb)
  {
    Steps(m.table, Rest(m, f, verb).tokens, f.repl, d)
  }

  /** What is to come from the saved levels. */
  ghost function Pending(m: Memory, saved: seq<Frame>): Output
    requires m.Ok() && |saved| < STACK_SIZE && forall i :: 0 <= i < |saved| ==> FrameOk(m, saved[i], false)
  {
    if saved == [] then Done()
    else
      var last := |saved| - 1;
      Then(FrameOutput(m, saved[last], false, STACK_SIZE - |saved|), Pending(m, saved[..last]))
  }

  ghost function PendingSteps(m: Memory, saved: seq<Frame>): nat
    requires m.Ok() && |saved| < STACK_SIZE && forall i :: 0 <= i < |saved| ==> FrameOk(m, saved[i], false)
  {
    if saved == [] then 0
    else
      var last := |saved| - 1;
      FrameSteps(m, saved[last], false, STACK_SIZE - |saved|) + PendingSteps(m, saved[..last])
  }

  /** Everything that is still to come. */
  ghost function Total(m: Memory, r: Run): Output
    requires m.Ok() && RunOk(m, r)
  {
    if r.Halted? then Done()
    else Then(FrameOutput(m, r.cur, r.verb, STACK_SIZE - 1 - |r.saved|), Pending(m, r.saved))
  }

  ghost function TotalSteps(m: Memory, r: Run): nat
    requires m.Ok() && RunOk(m, r)
  {
    if r.Halted? then 0
    else FrameSteps(m, r.cur, r.verb, STACK_SIZE - 1 - |r.saved|) + PendingSteps(m, r.saved)
  }

  // ---------- the steps ----------

  /** The start of text `t`. */
  function StartOf(m: Memory, t: nat, name: nat, section: nat): Frame
    requires t + 1 < |m.starts|
  {
    Frame(m.starts[t + 1], m.starts[t], name, t, section)
  }

  lemma StartOk(m: Memory, t: nat, name: nat, section: nat)
    requires m.Ok() && m.table.Live(t)
    ensures FrameOk(m, StartOf(m, t, name, section), false)
    ensures Rest(m, StartOf(m, t, name, section), false).tokens == m.table.texts[t]
  {
    assert m.Stored(t);
    DecodeEncode(m.table.texts[t], false);
  }

  /** `pop_level(1)`: the next text of the section, or the next level of the stack. */
  function Popped(m: Memory, r: Run): Run
    requires r.Running? && r.cur.repl < |m.table.link|
    requires m.table.link[r.cur.repl] < SECTION_FLAG ==> m.table.link[r.cur.repl] + 1 < |m.starts|
  {
    var l := m.table.link[r.cur.repl];
    if l < SECTION_FLAG then Running(StartOf(m, l, r.cur.name, r.cur.section), r.saved, false)
    else if r.saved == [] then Halted
    else Running(r.saved[|r.saved| - 1], r.saved[..|r.saved| - 1], false)
  }

  lemma NextLive(m: Memory, t: nat)
    requires m.Ok() && m.table.Live(t)
    ensures m.table.Ok() && m.table.link[t] <= SECTION_FLAG
    ensures m.table.link[t] < SECTION_FLAG ==>
              m.table.Live(m.table.link[t]) && m.table.link[t] > t && m.table.link[t] + 1 < |m.starts|
  {
    hide Memory.Stored;
  }

  lemma EndIs(m: Memory, r: Run)
    requires m.Ok() && RunOk(m, r) && r.Running? && r.cur.byte == r.cur.end
    ensures !r.verb && FrameOk(m, r.cur, r.verb) && r.cur.repl < |m.table.link| == |m.table.texts|
    ensures Rest(m, r.cur, r.verb).tokens == [] && m.table.Live(r.cur.repl)
  {
  }

  /** At the end of a text. */
  lemma EndStep(m: Memory, r: Run)
    requires m.Ok() && RunOk(m, r) && r.Running? && r.cur.byte == r.cur.end
    ensures !r.verb
    ensures m.table.link[r.cur.repl] < SECTION_FLAG ==> m.table.link[r.cur.repl] + 1 < |m.starts|
    ensures RunOk(m, Popped(m, r))
    ensures Total(m, r) == Then(CloseEvents(r.cur.section), Total(m, Popped(m, r)))
    ensures TotalSteps(m, Popped(m, r)) < TotalSteps(m, r)
  {
    hide Table.Ok, Memory.Stored, Memory.Ok, Chain, FrameOk, Rest;
    EndIs(m, r);
    NextLive(m, r.cur.repl);
    var l, d := m.table.link[r.cur.repl], STACK_SIZE - 1 - |r.saved|;
    var rest := Pending(m, r.saved);
    var close := CloseEvents(r.cur.section);
    if l < SECTION_FLAG {
      StartOk(m, l, r.cur.name, r.cur.section);
      ThenAssoc(close, Level(m.table, m.table.texts[l], l, r.cur.section, d), rest);
    } else {
      ThenAssoc(close, Done(), rest);
      ThenAssoc(rest, Done(), Done());
    }
  }

  /** The state after `size` bytes with the token `t`. */
  function Passed(r: Run, t: Token, size: nat): Run
    requires r.Running?
  {
    var f := r.cur.(byte := r.cur.byte + size);
    r.(cur := if t.Mark? then f.(section := t.n) else f, verb := After(t, r.verb))
  }

  /** Reading a token. */
  lemma ReadStep(m: Memory, r: Run)
    requires m.Ok() && RunOk(m, r) && r.Running? && r.cur.byte < r.cur.end
    ensures var rd := ReadToken(m.mem[r.cur.byte..r.cur.end], r.verb);
      && rd.Read? && RunOk(m, Passed(r, rd.token, rd.size)) && (rd.token.Ref? ==> rd.token.n < |m.table.equiv|)
      && Fits(rd.token, r.verb)
      && Rest(m, r.cur, r.verb).tokens ==
        [rd.token] + Rest(m, Passed(r, rd.token, rd.size).cur, Passed(r, rd.token, rd.size).verb).tokens
  {
    hide Table.IsNext, Table.Ok, Memory.Ok, ReadToken, Code, Fits;
    var b := m.mem[r.cur.byte..r.cur.end];
    var rd := ReadToken(b, r.verb);
    CodeRead(b, r.verb);
    assert b[rd.size..] == m.mem[r.cur.byte + rd.size..r.cur.end];
    var d := Decode(b[rd.size..], After(rd.token, r.verb));
    assert Rest(m, r.cur, r.verb).tokens == [rd.token] + d.tokens;
    assert m.table.RefsIn(d.tokens) by {
      assert forall i :: 0 <= i < |d.tokens| ==> d.tokens[i] == Rest(m, r.cur, r.verb).tokens[i + 1];
    }
    assert rd.token == Rest(m, r.cur, r.verb).tokens[0];
  }

  /** A token that is written. */
  lemma EmitStep(m: Memory, r: Run, t: Token, size: nat)
    requires m.Ok() && RunOk(m, r) && r.Running? && r.cur.byte < r.cur.end
    requires ReadToken(m.mem[r.cur.byte..r.cur.end], r.verb) == Read(t, size)
    ensures t.Ref? ==> t.n < |m.table.equiv|
    ensures RunOk(m, Passed(r, t, size)) && TotalSteps(m, Passed(r, t, size)) < TotalSteps(m, r)
    ensures !t.Ref? && !t.Defs? ==> Total(m, r) == Then(One(Emit(t)), Total(m, Passed(r, t, size)))
    ensures t.Ref? && m.table.equiv[t.n] == 0 ==>
              Total(m, r) == Then(if t.n == 0 then Done() else One(Missing(t.n)), Total(m, Passed(r, t, size)))
    ensures t.Defs? ==>
              Total(m, r) == if |r.saved| + 1 == STACK_SIZE then Fatal()
                else Then(Macros(m.table, 1), Total(m, Passed(r, t, size)))
    ensures t.Ref? && m.table.equiv[t.n] != 0 && |r.saved| + 1 == STACK_SIZE ==> Total(m, r) == Fatal()
  {
    ReadStep(m, r);
    var next := Passed(r, t, size);
    var d := STACK_SIZE - 1 - |r.saved|;
    var ts := Rest(m, next.cur, next.verb).tokens;
    assert ([t] + ts)[1..] == ts;
    var rest := Level(m.table, ts, r.cur.repl, next.cur.section, d);
    ThenAssoc(One(Emit(t)), rest, Pending(m, r.saved));
    if t.Ref? {
      ThenAssoc(if t.n == 0 then Done() else One(Missing(t.n)), rest, Pending(m, r.saved));
    } else if t.Defs? {
      ThenAssoc(Macros(m.table, 1), rest, Pending(m, r.saved));
    }
  }

  /** The state after the name of section `n` with texts. */
  function Pushed(m: Memory, r: Run, n: nat, size: nat): Run
    requires r.Running? && n < |m.table.equiv| && m.table.equiv[n] + 1 < |m.starts|
  {
    Running(StartOf(m, m.table.equiv[n], n, 0), r.saved + [Passed(r, Ref(n), size).cur], false)
  }

  lemma RefInTable(m: Memory, n: nat)
    requires m.Ok() && n < |m.table.equiv| && m.table.equiv[n] != 0
    ensures m.table.equiv[n] + 1 < |m.starts| && m.table.Ok() && m.table.Live(m.table.equiv[n])
  {
  }

  /** A section name: a new level. */
  lemma PushStep(m: Memory, r: Run, n: nat, size: nat)
    requires m.Ok() && RunOk(m, r) && r.Running? && r.cur.byte < r.cur.end && |r.saved| + 1 < STACK_SIZE
    requires ReadToken(m.mem[r.cur.byte..r.cur.end], r.verb) == Read(Ref(n), size)
    requires n < |m.table.equiv| && m.table.equiv[n] != 0
    ensures m.table.equiv[n] + 1 < |m.starts| && RunOk(m, Pushed(m, r, n, size))
    ensures Total(m, r) == Total(m, Pushed(m, r, n, size))
    ensures TotalSteps(m, Pushed(m, r, n, size)) < TotalSteps(m, r)
  {
    hide Table.Ok, Memory.Ok, Memory.Stored, ReadToken, Decode;
    RefInTable(m, n);
    ReadStep(m, r);
    var f := Passed(r, Ref(n), size).cur;
    var t := m.table.equiv[n];
    StartOk(m, t, n, 0);
    var d := STACK_SIZE - 1 - |r.saved|;
    var ts := Rest(m, f, false).tokens;
    assert ([Ref(n)] + ts)[1..] == ts;
    var saved := r.saved + [f];
    assert saved[..|saved| - 1] == r.saved;
    ThenAssoc(Level(m.table, m.table.texts[t], t, 0, d - 1), Level(m.table, ts, f.repl, f.section, d),
              Pending(m, r.saved));
  }
}
