/** Runs of the stack machine of CTANGLE: one turn of `get_output`, which states come to an end, and the section
    number that is left over at the end. */
module TangleRuns {
  import opened TangleTokens
  import opened TangleExpansion
  import opened TangleMachine

  /** At the end of text 0 when it is not linked to anything. That is where reading starts for an output file whose
      section has no texts if there is no unnamed section either. */
  ghost predicate Stuck(m: Memory, r: Run) {
    && r.Running? && r.saved == [] && r.cur.repl == 0 && |m.starts| > 1 && |m.table.link| > 0 && m.table.link[0] == 0
    && r.cur.byte == r.cur.end && r.cur == StartOf(m, 0, r.cur.name, r.cur.section) && !r.verb
  }

  /** The states that phase two comes to. */
  ghost predicate Placed(m: Memory, r: Run) {
    RunOk(m, r) || Stuck(m, r)
  }

  /** One turn: the next state and what is sent to the output, or a fatal error after some output. */
  datatype Turned = Stopped(events: seq<Event>) | Went(next: Run, events: seq<Event>)

  /** What `get_output` does from one `restart` to the next one, or to its return. */
  ghost function Turn(m: Memory, r: Run): Turned
    requires m.Ok() && r.Running? && Placed(m, r)
  {
    if r.cur.byte == r.cur.end then
      EndsWell(m, r);
      Went(Popped(m, r), CloseEvents(r.cur.section).events)
    else
      ReadStep(m, r);
      var rd := ReadToken(m.mem[r.cur.byte..r.cur.end], r.verb);
      Taken(m, r, rd.token, rd.size)
  }

  lemma EndsWell(m: Memory, r: Run)
    requires m.Ok() && r.Running? && Placed(m, r) && r.cur.byte == r.cur.end
    ensures r.cur.repl < |m.table.link| && !r.verb
    ensures m.table.link[r.cur.repl] < SECTION_FLAG ==> m.table.link[r.cur.repl] + 1 < |m.starts|
  {
    if RunOk(m, r) {
      EndStep(m, r);
    }
  }

  /** A turn that takes the token `t` of `size` bytes. */
  ghost function Taken(m: Memory, r: Run, t: Token, size: nat): Turned
    requires m.Ok() && r.Running? && (t.Ref? ==> t.n < |m.table.equiv|)
  {
    if t.Defs? then
      var macros := if |r.saved| + 1 == STACK_SIZE then Fatal() else MacrosOf(m);
      if macros.ok then Went(Passed(r, t, size), macros.events) else Stopped(macros.events)
    else if t.Ref? && m.table.equiv[t.n] != 0 then
      RefStarts(m, t.n);
      if |r.saved| + 1 == STACK_SIZE then Stopped([]) else Went(Pushed(m, r, t.n, size), [])
    else
      Went(Passed(r, t, size), if !t.Ref? then [Emit(t)] else if t.n == 0 then [] else [Missing(t.n)])
  }

  ghost function MacrosOf(m: Memory): Output
    requires m.Ok()
  {
    Macros(m.table, 1)
  }

  lemma RefStarts(m: Memory, n: nat)
    requires m.Ok() && n < |m.table.equiv|
    ensures m.table.equiv[n] + 1 < |m.starts|
  {
  }

  /** A turn takes from what is to come exactly what it sends to the output, and there are less turns left. */
  lemma TurnTotal(m: Memory, r: Run)
    requires m.Ok() && RunOk(m, r) && r.Running?
    ensures Turn(m, r).Stopped? ==> Total(m, r) == Output(Turn(m, r).events, false) && TotalSteps(m, r) > 0
    ensures Turn(m, r).Went? ==>
              && RunOk(m, Turn(m, r).next) && TotalSteps(m, Turn(m, r).next) < TotalSteps(m, r)
              && Total(m, r) == Then(Output(Turn(m, r).events, true), Total(m, Turn(m, r).next))
  {
    hide Memory.Ok, RunOk, Total, TotalSteps, Macros, Passed, Pushed, Popped, ReadToken, Stuck;
    Within(m, r);
    if r.cur.byte == r.cur.end {
      EndStep(m, r);
    } else {
      ReadStep(m, r);
      var rd := ReadToken(m.mem[r.cur.byte..r.cur.end], r.verb);
      EmitStep(m, r, rd.token, rd.size);
      if rd.token.Ref? {
        if m.table.equiv[rd.token.n] == 0 {
          ThenAssoc(Total(m, Passed(r, rd.token, rd.size)), Done(), Done());
        } else if |r.saved| + 1 != STACK_SIZE {
          PushStep(m, r, rd.token.n, rd.size);
          ThenAssoc(Total(m, Pushed(m, r, rd.token.n, rd.size)), Done(), Done());
        }
      }
    }
  }

  lemma Within(m: Memory, r: Run)
    requires RunOk(m, r) && r.Running?
    ensures r.cur.byte <= r.cur.end <= |m.mem| && |r.saved| < STACK_SIZE
  {
  }

  /** At the stuck state, a turn changes nothing, whatever it writes. */
  lemma StuckTurn(m: Memory, r: Run)
    requires m.Ok() && Stuck(m, r)
    ensures Turn(m, r) == Went(r, CloseEvents(r.cur.section).events)
  {
  }

  // ---------- which runs come to an end ----------

  /** The machine comes to an end, or to a fatal error, in at most `k` turns. */
  ghost predicate HaltsIn(m: Memory, r: Run, k: nat)
    requires m.Ok() && Placed(m, r)
    decreases k
  {
    r.Halted? || (k > 0 && match Turn(m, r)
                           case Stopped(_) => true
                           case Went(next, _) => TurnPlaced(m, r); HaltsIn(m, next, k - 1))
  }

  ghost predicate Halts(m: Memory, r: Run)
    requires m.Ok() && Placed(m, r)
  {
    exists k: nat :: HaltsIn(m, r, k)
  }

  lemma TurnPlaced(m: Memory, r: Run)
    requires m.Ok() && Placed(m, r) && r.Running?
    ensures Turn(m, r).Went? ==> Placed(m, Turn(m, r).next)
  {
    hide Turn, Stuck, RunOk, Total, TotalSteps, Memory.Ok;
    if RunOk(m, r) {
      TurnTotal(m, r);
    } else {
      StuckTurn(m, r);
    }
  }

  lemma {:induction false} RunsHalt(m: Memory, r: Run, k: nat)
    requires m.Ok() && RunOk(m, r) && TotalSteps(m, r) <= k
    ensures HaltsIn(m, r, k)
    decreases k
  {
    hide Turn, Stuck, RunOk, Total, TotalSteps, Memory.Ok;
    if r.Running? {
      TurnTotal(m, r);
      if Turn(m, r).Went? {
        RunsHalt(m, Turn(m, r).next, k - 1);
      }
    }
  }

  lemma {:induction false} StuckRuns(m: Memory, r: Run, k: nat)
    requires m.Ok() && Stuck(m, r)
    ensures !HaltsIn(m, r, k)
    decreases k
  {
    hide Turn, RunOk, Memory.Ok;
    StuckTurn(m, r);
    if k > 0 {
      StuckRuns(m, r, k - 1);
    }
  }

  /** The machine comes to an end exactly if it does not start at the stuck state. */
  lemma HaltsIff(m: Memory, r: Run)
    requires m.Ok() && Placed(m, r)
    ensures Halts(m, r) <==> !Stuck(m, r)
  {
    hide Turn, RunOk, HaltsIn, Stuck, Memory.Ok;
    if Stuck(m, r) {
      forall k: nat
        ensures !HaltsIn(m, r, k)
      {
        StuckRuns(m, r, k);
      }
    } else {
      RunsHalt(m, r, TotalSteps(m, r));
    }
  }

  // ---------- the section number that is left over ----------

  /** `cur_section` at the end of a level whose rest of the current text `t` is `ts`. */
  function EndNumber(tb: Table, ts: seq<Token>, t: nat, sec: nat): nat
    requires tb.Ok() && tb.Live(t)
    decreases |tb.texts| - t, |ts|
  {
    if ts == [] then
      if tb.link[t] == SECTION_FLAG then sec else EndNumber(tb, tb.texts[tb.link[t]], tb.link[t], sec)
    else EndNumber(tb, ts[1..], t, if ts[0].Mark? then ts[0].n else sec)
  }

  ghost function FrameLeft(m: Memory, f: Frame, verb: bool): nat
    requires m.Ok() && FrameOk(m, f, verb)
  {
    EndNumber(m.table, Rest(m, f, verb).tokens, f.repl, f.section)
  }

  /** `cur_section` when the machine comes to its end. */
  ghost function Left(m: Memory, r: Run): nat
    requires m.Ok() && RunOk(m, r) && r.Running?
  {
    if r.saved == [] then FrameLeft(m, r.cur, r.verb) else FrameLeft(m, r.saved[0], false)
  }

  /** No turn changes what will be left over. */
  lemma TurnLeft(m: Memory, r: Run)
    requires m.Ok() && RunOk(m, r) && r.Running? && Turn(m, r).Went?
    ensures RunOk(m, Turn(m, r).next)
    ensures Left(m, r) == if Turn(m, r).next.Halted? then r.cur.section else Left(m, Turn(m, r).next)
  {
    hide Memory.Ok, Total, TotalSteps, Macros, ReadToken, Stuck, Table.Ok, Rest, FrameOk;
    TurnTotal(m, r);
    Within(m, r);
    if r.cur.byte == r.cur.end {
      EndsWell(m, r);
      EndLeft(m, r);
    } else {
      ReadStep(m, r);
      var rd := ReadToken(m.mem[r.cur.byte..r.cur.end], r.verb);
      PassedLeft(m, r, rd.token, rd.size);
    }
  }

  lemma EndLeft(m: Memory, r: Run)
    requires m.Ok() && RunOk(m, r) && r.Running? && r.cur.byte == r.cur.end
    requires r.cur.repl < |m.table.link|
    requires m.table.link[r.cur.repl] < SECTION_FLAG ==> m.table.link[r.cur.repl] + 1 < |m.starts|
    requires RunOk(m, Popped(m, r))
    ensures Left(m, r) == if Popped(m, r).Halted? then r.cur.section else Left(m, Popped(m, r))
  {
    hide Memory.Ok, Table.Ok, Memory.Stored;
    NextLive(m, r.cur.repl);
    var l := m.table.link[r.cur.repl];
    EmptyRest(m, r);
    if l < SECTION_FLAG {
      StartOk(m, l, r.cur.name, r.cur.section);
    }
  }

  lemma EmptyRest(m: Memory, r: Run)
    requires m.Ok() && RunOk(m, r) && r.Running? && r.cur.byte == r.cur.end
    ensures Rest(m, r.cur, r.verb).tokens == []
  {
  }

  lemma PassedLeft(m: Memory, r: Run, t: Token, size: nat)
    requires m.Ok() && RunOk(m, r) && r.Running? && r.cur.byte < r.cur.end
    requires ReadToken(m.mem[r.cur.byte..r.cur.end], r.verb) == Read(t, size) && Fits(t, r.verb)
    requires (t.Ref? ==> t.n < |m.table.equiv|) && RunOk(m, Passed(r, t, size))
    requires Rest(m, r.cur, r.verb).tokens == [t] + Rest(m, Passed(r, t, size).cur, Passed(r, t, size).verb).tokens
    ensures Left(m, r) == Left(m, Passed(r, t, size))
    ensures t.Ref? && m.table.equiv[t.n] != 0 && m.table.equiv[t.n] + 1 < |m.starts|
            && RunOk(m, Pushed(m, r, t.n, size)) ==>
              Left(m, r) == Left(m, Pushed(m, r, t.n, size))
  {
    hide Memory.Ok, ReadToken, Table.Ok;
    var next := Passed(r, t, size);
    assert Rest(m, r.cur, r.verb).tokens[1..] == Rest(m, next.cur, next.verb).tokens;
    assert FrameLeft(m, r.cur, r.verb) == FrameLeft(m, next.cur, next.verb);
  }
}
