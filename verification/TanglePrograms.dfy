/** Phase two of CTANGLE: what it writes to all its files, when it comes to an end, and when its section numbers
    nest. */
module TanglePrograms {
  import opened TangleTokens
  import opened TangleExpansion
  import opened TangleWriter
  import opened TangleMachine
  import opened TangleSections
  import opened TangleRuns

  /** What is written to the C file: the macro definitions, unless `@h` puts them elsewhere, and the unnamed section. */
  ghost function Program(tb: Table, defsSeen: bool): Output
    requires Scanned(tb)
  {
    Then(if defsSeen then Done() else Macros(tb, 1),
         if tb.link[0] == 0 then Done() else Then(Section(tb, Unnamed(tb), STACK_SIZE - 1), One(FileEnd)))
  }

  /** The texts that are written to the file for section `f`: its own, or those of the unnamed section if it has
      none. */
  ghost function FileTexts(tb: Table, f: nat): (c: seq<nat>)
    requires tb.Ok() && f < |tb.equiv|
    ensures forall i :: 0 <= i < |c| ==> tb.Sectional(c[i])
  {
    EquivSectional(tb, f);
    UnnamedSectional(tb);
    if tb.equiv[f] != 0 then Chain(tb, tb.equiv[f]) else Unnamed(tb)
  }

  lemma EquivSectional(tb: Table, f: nat)
    requires tb.Ok() && f < |tb.equiv|
    ensures |tb.link| == |tb.texts| > 0 && (tb.equiv[f] != 0 ==> tb.Sectional(tb.equiv[f]))
  {
  }

  lemma UnnamedSectional(tb: Table)
    requires tb.Ok()
    ensures |tb.link| == |tb.texts| > 0 && (tb.link[0] != 0 ==> tb.Sectional(tb.link[0]))
  {
  }

  /** There is no text at all for the file. */
  predicate Endless(tb: Table, f: nat)
    requires f < |tb.equiv| && |tb.link| > 0
  {
    tb.equiv[f] == 0 && tb.link[0] == 0
  }

  /** The section number of the last text: `cur_section` when the texts have been written. */
  ghost function LastNumber(tb: Table, c: seq<nat>): nat
    requires Scanned(tb) && forall i :: 0 <= i < |c| ==> tb.Sectional(c[i])
  {
    if c == [] then 0
    else
      assert tb.Sectional(c[|c| - 1]);
      tb.texts[c[|c| - 1]][0].n
  }

  /** The file for section `f`, when the number `sec` is left over from before. If the section has no texts, reading
      starts at the end of text 0, with the comment for the end of section `sec`. If there is no unnamed section
      either, it never gets further than that. */
  ghost function FileOutput(tb: Table, f: nat, sec: nat): Output
    requires Scanned(tb) && f < |tb.equiv|
  {
    if Endless(tb, f) then Fatal()
    else
      Then(if tb.equiv[f] != 0 then Done() else CloseEvents(sec),
           Then(Section(tb, FileTexts(tb, f), STACK_SIZE - 1), One(FileEnd)))
  }

  predicate InTable(tb: Table, files: seq<nat>) {
    forall i :: 0 <= i < |files| ==> files[i] < |tb.equiv|
  }

  ghost function FilesOutput(tb: Table, files: seq<nat>, sec: nat): Output
    requires Scanned(tb) && InTable(tb, files)
  {
    if files == [] then Done()
    else
      var rest := FilesOutput(tb, files[1..], LastNumber(tb, FileTexts(tb, files[0])));
      Then(One(FileStart(files[0])), Then(FileOutput(tb, files[0], sec), rest))
  }

  /** All that phase two writes. */
  ghost function Phase(tb: Table, defsSeen: bool, files: seq<nat>): Output
    requires Scanned(tb) && InTable(tb, files)
  {
    Then(Program(tb, defsSeen), FilesOutput(tb, files, LastNumber(tb, Unnamed(tb))))
  }

  /** All that comes before file `i` is written without a fatal error, so that the file is begun. */
  ghost predicate Reached(tb: Table, defsSeen: bool, files: seq<nat>, i: nat)
    requires Scanned(tb) && InTable(tb, files) && i < |files|
  {
    Phase(tb, defsSeen, files[..i]).ok
  }

  /** The same for a part of the files. */
  ghost predicate Begun(tb: Table, files: seq<nat>, sec: nat, i: nat)
    requires Scanned(tb) && InTable(tb, files) && i < |files|
  {
    FilesOutput(tb, files[..i], sec).ok
  }

  lemma BegunNext(tb: Table, files: seq<nat>, sec: nat, i: nat)
    requires Scanned(tb) && InTable(tb, files) && i < |files|
    ensures Begun(tb, files, sec, 0)
    ensures i > 0 ==> (Begun(tb, files, sec, i) <==>
                       FileOutput(tb, files[0], sec).ok
                       && Begun(tb, files[1..], LastNumber(tb, FileTexts(tb, files[0])), i - 1))
  {
    hide Scanned, FileOutput, LastNumber, FileTexts;
    if i > 0 {
      assert files[..i][0] == files[0] && files[..i][1..] == files[1..][..i - 1];
    }
  }

  lemma ReachedIs(tb: Table, defsSeen: bool, files: seq<nat>, i: nat)
    requires Scanned(tb) && InTable(tb, files) && i < |files|
    ensures Reached(tb, defsSeen, files, i) <==>
            Program(tb, defsSeen).ok && Begun(tb, files, LastNumber(tb, Unnamed(tb)), i)
  {
    hide Scanned, Program, FilesOutput;
  }

  // ---------- where the machine starts ----------

  function FileRun(m: Memory, f: nat, sec: nat): Run
    requires f < |m.table.equiv| && m.table.equiv[f] + 1 < |m.starts|
  {
    Running(StartOf(m, m.table.equiv[f], f, sec), [], false)
  }

  function MainRun(m: Memory): Run
    requires |m.table.link| > 0 && m.table.link[0] + 1 < |m.starts|
  {
    Running(StartOf(m, m.table.link[0], 0, 0), [], false)
  }

  lemma EndNumberIs(tb: Table, ts: seq<Token>, t: nat, sec: nat)
    requires Scanned(tb) && tb.Sectional(t) && NoMarks(ts)
    ensures EndNumber(tb, ts, t, sec) == if Chain(tb, t) == [t] then sec else LastNumber(tb, Chain(tb, t))
    decreases |tb.texts| - t, |ts|, 0
  {
    if ts == [] {
      if tb.link[t] != SECTION_FLAG {
        EndNumberStarts(tb, tb.link[t], sec);
      }
    } else {
      EndNumberIs(tb, ts[1..], t, sec);
    }
  }

  /** The number that is left over after a section. */
  lemma EndNumberStarts(tb: Table, t: nat, sec: nat)
    requires Scanned(tb) && tb.Sectional(t)
    ensures EndNumber(tb, tb.texts[t], t, sec) == LastNumber(tb, Chain(tb, t)) > 0
    decreases |tb.texts| - t, |tb.texts[t]|, 1
  {
    var ts := tb.texts[t];
    assert NoMarks(ts[1..]);
    EndNumberIs(tb, ts[1..], t, ts[0].n);
    var c := Chain(tb, t);
    assert tb.Sectional(c[|c| - 1]);
  }

  lemma TableIs(m: Memory)
    requires m.Ok()
    ensures m.table.Ok() && |m.table.link| == |m.table.texts| > 0 && |m.starts| == |m.table.texts| + 1
    ensures m.table.link[0] < |m.table.texts| && m.table.texts[0] == []
    ensures forall f :: 0 <= f < |m.table.equiv| ==> m.table.equiv[f] < |m.table.texts|
  {
  }

  /** A section that is the only one on the stack. */
  lemma LevelStarts(m: Memory, t: nat, name: nat, sec: nat)
    requires m.Ok() && Scanned(m.table) && m.table.Sectional(t)
    ensures t + 1 < |m.starts|
    ensures var r := Running(StartOf(m, t, name, sec), [], false);
      && RunOk(m, r) && Total(m, r) == Section(m.table, Chain(m.table, t), STACK_SIZE - 1)
      && Left(m, r) == LastNumber(m.table, Chain(m.table, t)) > 0
  {
    hide Section, Memory.Ok, Table.Ok, Table.IsNext, Scanned, Chain, LastNumber, Rest, FrameOk;
    TableIs(m);
    StartOk(m, t, name, sec);
    TextExpands(m.table, t, sec, STACK_SIZE - 1);
    EndNumberStarts(m.table, t, sec);
    ThenAssoc(Section(m.table, Chain(m.table, t), STACK_SIZE - 1), Done(), Done());
  }

  /** Text 0 leads to the unnamed section. */
  lemma UnnamedStarts(m: Memory, name: nat, sec: nat)
    requires m.Ok() && Scanned(m.table) && |m.table.link| > 0 && m.table.link[0] != 0
    ensures 1 < |m.starts|
    ensures var r := Running(StartOf(m, 0, name, sec), [], false);
      && RunOk(m, r) && Total(m, r) == Then(CloseEvents(sec), Section(m.table, Unnamed(m.table), STACK_SIZE - 1))
      && Left(m, r) == LastNumber(m.table, Unnamed(m.table)) > 0
  {
    hide Section, Memory.Ok, Table.IsNext, LastNumber, Rest, FrameOk;
    TableIs(m);
    StartOk(m, 0, name, sec);
    var u := m.table.link[0];
    UnnamedSectional(m.table);
    TextExpands(m.table, u, sec, STACK_SIZE - 1);
    EndNumberStarts(m.table, u, sec);
    ThenAssoc(Then(CloseEvents(sec), Section(m.table, Chain(m.table, u), STACK_SIZE - 1)), Done(), Done());
  }

  /** The machine at the start of a file: it gives what the file is to be, and leaves the number of its last text. */
  lemma FileStarts(m: Memory, f: nat, sec: nat)
    requires m.Ok() && Scanned(m.table) && f < |m.table.equiv| && |m.table.link| > 0 && !Endless(m.table, f)
    ensures m.table.equiv[f] + 1 < |m.starts| && RunOk(m, FileRun(m, f, sec))
    ensures Then(Total(m, FileRun(m, f, sec)), One(FileEnd)) == FileOutput(m.table, f, sec)
    ensures Left(m, FileRun(m, f, sec)) == LastNumber(m.table, FileTexts(m.table, f)) > 0
  {
    hide Section, Memory.Ok, Table.Ok, Scanned, Total, RunOk, Chain, LastNumber, Left;
    TableIs(m);
    EquivSectional(m.table, f);
    var t := m.table.equiv[f];
    var s := Section(m.table, FileTexts(m.table, f), STACK_SIZE - 1);
    ThenAssoc(Then(s, One(FileEnd)), Done(), Done());
    if t != 0 {
      LevelStarts(m, t, f, sec);
    } else {
      UnnamedStarts(m, f, sec);
      ThenAssoc(CloseEvents(sec), s, One(FileEnd));
    }
  }

  /** Without any text, the machine starts where no turn changes anything. */
  lemma EndlessStuck(m: Memory, f: nat, sec: nat)
    requires m.Ok() && f < |m.table.equiv| && |m.table.link| > 0 && Endless(m.table, f)
    ensures m.table.equiv[f] + 1 < |m.starts| && Stuck(m, FileRun(m, f, sec))
  {
    TableIs(m);
    assert m.Stored(0);
    assert Encode(m.table.texts[0], false) == [];
  }

  lemma FilePlaced(m: Memory, f: nat, sec: nat)
    requires m.Ok() && Scanned(m.table) && f < |m.table.equiv|
    ensures |m.table.link| > 0 && m.table.equiv[f] + 1 < |m.starts| && Placed(m, FileRun(m, f, sec))
    ensures Stuck(m, FileRun(m, f, sec)) <==> Endless(m.table, f)
  {
    hide Memory.Ok, Scanned, RunOk, Total, Left, FileOutput;
    TableIs(m);
    if Endless(m.table, f) {
      EndlessStuck(m, f, sec);
    } else {
      FileStarts(m, f, sec);
    }
  }

  // ---------- when phase two comes to an end ----------

  /** The machine comes to an end for every file that is begun; `sec` is the number left over from before. */
  ghost predicate FilesHalt(m: Memory, files: seq<nat>, sec: nat)
    requires m.Ok() && Scanned(m.table) && InTable(m.table, files)
    decreases |files|
  {
    files == [] ||
    (FilePlaced(m, files[0], sec);
     && Halts(m, FileRun(m, files[0], sec))
     && (FileOutput(m.table, files[0], sec).ok ==>
           FilesHalt(m, files[1..], LastNumber(m.table, FileTexts(m.table, files[0])))))
  }

  ghost predicate PhaseTwoHalts(m: Memory, defsSeen: bool, files: seq<nat>)
    requires m.Ok() && Scanned(m.table) && InTable(m.table, files)
  {
    MainPlaced(m);
    && (m.table.link[0] != 0 ==> Halts(m, MainRun(m)))
    && (Program(m.table, defsSeen).ok ==> FilesHalt(m, files, LastNumber(m.table, Unnamed(m.table))))
  }

  lemma MainPlaced(m: Memory)
    requires m.Ok() && Scanned(m.table)
    ensures |m.table.link| > 0
    ensures m.table.link[0] != 0 ==> m.table.link[0] + 1 < |m.starts| && RunOk(m, MainRun(m))
  {
    hide Memory.Ok, Scanned, RunOk;
    TableIs(m);
    UnnamedSectional(m.table);
    if m.table.link[0] != 0 {
      LevelStarts(m, m.table.link[0], 0, 0);
    }
  }

  /** No file that is begun is one of `bad`. */
  ghost predicate NoneBegun(tb: Table, files: seq<nat>, sec: nat, bad: set<nat>)
    requires Scanned(tb) && InTable(tb, files)
  {
    forall i :: 0 <= i < |files| && Begun(tb, files, sec, i) ==> files[i] !in bad
  }

  lemma NoneBegunNext(tb: Table, files: seq<nat>, sec: nat, bad: set<nat>)
    requires Scanned(tb) && InTable(tb, files) && files != []
    ensures NoneBegun(tb, files, sec, bad) <==>
              && files[0] !in bad
              && (FileOutput(tb, files[0], sec).ok ==>
                    NoneBegun(tb, files[1..], LastNumber(tb, FileTexts(tb, files[0])), bad))
  {
    hide Table.Ok, FileOutput, Begun, LastNumber, FileTexts;
    var left := LastNumber(tb, FileTexts(tb, files[0]));
    forall i | 0 <= i < |files|
      ensures Begun(tb, files, sec, 0)
      ensures i > 0 ==> (Begun(tb, files, sec, i) <==>
                         FileOutput(tb, files[0], sec).ok && Begun(tb, files[1..], left, i - 1))
    {
      BegunNext(tb, files, sec, i);
    }
    if NoneBegun(tb, files, sec, bad) {
      assert Begun(tb, files, sec, 0);
      forall i | 0 <= i < |files[1..]| && Begun(tb, files[1..], left, i) && FileOutput(tb, files[0], sec).ok
        ensures files[1..][i] !in bad
      {
        assert Begun(tb, files, sec, i + 1);
      }
    }
  }

  lemma NoFiles(tb: Table, sec: nat, bad: set<nat>)
    requires Scanned(tb)
    ensures NoneBegun(tb, [], sec, bad)
  {
  }

  /** The names of the files that there is no text for. */
  ghost function EndlessFiles(tb: Table): set<nat>
    requires |tb.link| > 0
  {
    set f | 0 <= f < |tb.equiv| && Endless(tb, f)
  }

  /** The names of the files that the unnamed section is written to although their own sections have no texts. */
  ghost function UndefinedFiles(tb: Table): set<nat>
    requires |tb.link| > 0
  {
    set f | 0 <= f < |tb.equiv| && tb.equiv[f] == 0 && tb.link[0] != 0
  }

  lemma {:induction false} FilesHaltIff(m: Memory, files: seq<nat>, sec: nat)
    requires m.Ok() && Scanned(m.table) && InTable(m.table, files) && |m.table.link| > 0
    ensures FilesHalt(m, files, sec) <==> NoneBegun(m.table, files, sec, EndlessFiles(m.table))
    decreases |files|
  {
    hide Memory.Ok, Table.Ok, FileOutput, NoneBegun, Halts, LastNumber, FileTexts, Stuck, Placed;
    if files == [] {
      NoFiles(m.table, sec, EndlessFiles(m.table));
    } else {
      FilePlaced(m, files[0], sec);
      HaltsIff(m, FileRun(m, files[0], sec));
      NoneBegunNext(m.table, files, sec, EndlessFiles(m.table));
      FilesHaltIff(m, files[1..], LastNumber(m.table, FileTexts(m.table, files[0])));
    }
  }

  /** Phase two comes to an end exactly if, before a fatal error, it never begins a file for a section without texts
      when there is no unnamed section. */
  lemma PhaseTwoHaltsIff(m: Memory, defsSeen: bool, files: seq<nat>)
    requires m.Ok() && Scanned(m.table) && InTable(m.table, files)
    ensures |m.table.link| > 0
    ensures PhaseTwoHalts(m, defsSeen, files) <==>
              forall i :: 0 <= i < |files| && Reached(m.table, defsSeen, files, i) ==>
                            m.table.equiv[files[i]] != 0 || m.table.link[0] != 0
  {
    hide Memory.Ok, Scanned, Program, FilesHalt, Halts, Begun, Reached, LastNumber, RunOk, Stuck;
    TableIs(m);
    MainPlaced(m);
    if m.table.link[0] != 0 {
      HaltsIff(m, MainRun(m));
      MainNotStuck(m);
    }
    var left := LastNumber(m.table, Unnamed(m.table));
    FilesHaltIff(m, files, left);
    forall i | 0 <= i < |files|
      ensures Reached(m.table, defsSeen, files, i) <==> Program(m.table, defsSeen).ok && Begun(m.table, files, left, i)
    {
      ReachedIs(m.table, defsSeen, files, i);
    }
  }

  lemma MainNotStuck(m: Memory)
    requires m.Ok() && |m.table.link| > 0 && m.table.link[0] != 0 && m.table.link[0] + 1 < |m.starts|
    ensures !Stuck(m, MainRun(m))
  {
    hide Memory.Ok;
  }

  // ---------- when the section numbers are nested ----------

  lemma ProgramNests(tb: Table, defsSeen: bool)
    requires Scanned(tb)
    ensures Nested(Program(tb, defsSeen), [], [])
  {
    hide Nested, Section, Macros;
    OneNests(FileEnd, []);
    MacrosNest(tb, 1, []);
    SectionNests(tb, Unnamed(tb), STACK_SIZE - 1, []);
    var main := Section(tb, Unnamed(tb), STACK_SIZE - 1);
    ThenNests(main, One(FileEnd), [], [], []);
    ThenNests(if defsSeen then Done() else Macros(tb, 1), if tb.link[0] == 0 then Done() else Then(main, One(FileEnd)),
              [], [], []);
  }

  /** The file for a section that has texts. */
  lemma FileNests(tb: Table, f: nat, sec: nat)
    requires Scanned(tb) && f < |tb.equiv| && tb.equiv[f] != 0
    ensures Nested(FileOutput(tb, f, sec), [], [])
  {
    hide Nested, Section, Table.Ok;
    OneNests(FileEnd, []);
    SectionNests(tb, FileTexts(tb, f), STACK_SIZE - 1, []);
    ThenNests(Section(tb, FileTexts(tb, f), STACK_SIZE - 1), One(FileEnd), [], [], []);
    ThenAssoc(Then(Section(tb, FileTexts(tb, f), STACK_SIZE - 1), One(FileEnd)), Done(), Done());
  }

  /** The file for a section that has none begins with the end of a section that is not open. */
  lemma FileBreaks(tb: Table, f: nat, sec: nat, rest: Output)
    requires Scanned(tb) && f < |tb.equiv| && |tb.link| > 0 && tb.equiv[f] == 0 && tb.link[0] != 0 && sec > 0
    ensures Nest(Then(One(FileStart(f)), Then(FileOutput(tb, f, sec), rest)).events, []).Broken?
  {
    hide Section, Table.Ok, FileTexts;
    var s := Then(Section(tb, FileTexts(tb, f), STACK_SIZE - 1), One(FileEnd));
    var more := Then(s, rest).events;
    ThenAssoc(CloseEvents(sec), s, rest);
    assert Then(One(FileStart(f)), Then(FileOutput(tb, f, sec), rest)).events == [FileStart(f)] + ([Close(sec)] + more);
    assert ([FileStart(f)] + ([Close(sec)] + more))[1..] == [Close(sec)] + more;
  }

  /** The files nest exactly if none that is begun is for an undefined section. */
  lemma {:induction false} FilesNestIff(tb: Table, files: seq<nat>, sec: nat)
    requires Scanned(tb) && InTable(tb, files) && |tb.link| > 0 && (tb.link[0] != 0 ==> sec > 0)
    ensures var e := Nest(FilesOutput(tb, files, sec).events, []);
      && (e.Opened? <==> NoneBegun(tb, files, sec, UndefinedFiles(tb)))
      && (e.Opened? && FilesOutput(tb, files, sec).ok ==> e.numbers == [])
    decreases |files|
  {
    hide Table.Ok, FileOutput, NoneBegun, LastNumber, FileTexts;
    if files == [] {
      NoFiles(tb, sec, UndefinedFiles(tb));
    } else {
      var f, left := files[0], LastNumber(tb, FileTexts(tb, files[0]));
      var rest := FilesOutput(tb, files[1..], left);
      NoneBegunNext(tb, files, sec, UndefinedFiles(tb));
      LeftPositive(tb, f);
      FilesNestIff(tb, files[1..], left);
      if tb.equiv[f] == 0 && tb.link[0] != 0 {
        FileBreaks(tb, f, sec, rest);
      } else {
        FileStartNests(f, FileOutput(tb, f, sec), rest);
        if tb.equiv[f] != 0 {
          FileNests(tb, f, sec);
        } else {
          EndlessNests(tb, f, sec);
        }
      }
    }
  }

  lemma FileStartNests(f: nat, o: Output, rest: Output)
    ensures Nested(o, [], []) ==>
              var all := Then(One(FileStart(f)), Then(o, rest)).events;
              if o.ok then Nest(all, []) == Nest(rest.events, []) else Nest(all, []).Opened?
  {
    var all := Then(One(FileStart(f)), Then(o, rest)).events;
    assert all == [FileStart(f)] + Then(o, rest).events && all[1..] == Then(o, rest).events;
    if Nested(o, [], []) && o.ok {
      NestConcat(o.events, rest.events, []);
    }
  }

  lemma EndlessNests(tb: Table, f: nat, sec: nat)
    requires Scanned(tb) && f < |tb.equiv| && |tb.link| > 0 && Endless(tb, f)
    ensures Nested(FileOutput(tb, f, sec), [], []) && !FileOutput(tb, f, sec).ok
  {
    OneNests(FileEnd, []);
  }

  lemma LeftPositive(tb: Table, f: nat)
    requires Scanned(tb) && f < |tb.equiv| && |tb.link| > 0
    ensures tb.link[0] != 0 ==> LastNumber(tb, FileTexts(tb, f)) > 0 && LastNumber(tb, Unnamed(tb)) > 0
  {
    hide Table.Ok, LastNumber, Chain;
    EquivSectional(tb, f);
    UnnamedSectional(tb);
    if tb.link[0] != 0 {
      EndNumberStarts(tb, tb.link[0], 0);
      if tb.equiv[f] != 0 {
        EndNumberStarts(tb, tb.equiv[f], 0);
      }
    }
  }

  /** The comments with section numbers in all that is written nest exactly if no file is begun whose section has no
      texts while there is an unnamed section; then they are all closed at the end. */
  lemma NumbersNestIff(tb: Table, defsSeen: bool, files: seq<nat>, w: Writer)
    requires Scanned(tb) && InTable(tb, files) && |tb.link| > 0
    ensures var o := Phase(tb, defsSeen, files);
      var e := NestWritten(WriteAll(w, o.events).1, []);
      && (e.Opened? <==> forall i :: 0 <= i < |files| && Reached(tb, defsSeen, files, i) ==>
                                       tb.equiv[files[i]] != 0 || tb.link[0] == 0)
      && (e.Opened? && o.ok ==> e.numbers == [])
  {
    hide Table.Ok, Program, FilesOutput, LastNumber, WriteAll, NestWritten, Begun, Reached;
    var left := LastNumber(tb, Unnamed(tb));
    var p, fs := Program(tb, defsSeen), FilesOutput(tb, files, left);
    ProgramNests(tb, defsSeen);
    UnnamedPositive(tb);
    FilesNestIff(tb, files, left);
    WrittenNests(w, Phase(tb, defsSeen, files).events, []);
    if p.ok {
      NestConcat(p.events, fs.events, []);
    }
    forall i | 0 <= i < |files|
      ensures Reached(tb, defsSeen, files, i) <==> p.ok && Begun(tb, files, left, i)
    {
      ReachedIs(tb, defsSeen, files, i);
    }
  }

  lemma UnnamedPositive(tb: Table)
    requires Scanned(tb) && |tb.link| > 0
    ensures tb.link[0] != 0 ==> LastNumber(tb, Unnamed(tb)) > 0
  {
    UnnamedSectional(tb);
    if tb.link[0] != 0 {
      EndNumberStarts(tb, tb.link[0], 0);
    }
  }

  /** Where phase two ends without a fatal error, the comments nest exactly if the section of every file has texts. */
  lemma FinishedNestsIff(tb: Table, defsSeen: bool, files: seq<nat>, w: Writer)
    requires Scanned(tb) && InTable(tb, files) && Phase(tb, defsSeen, files).ok
    ensures NestWritten(WriteAll(w, Phase(tb, defsSeen, files).events).1, []) == Opened([]) <==>
              forall i :: 0 <= i < |files| ==> tb.equiv[files[i]] != 0
  {
    hide Phase, Reached, WriteAll, NestWritten;
    UnnamedSectional(tb);
    NumbersNestIff(tb, defsSeen, files, w);
    forall i | 0 <= i < |files|
      ensures Reached(tb, defsSeen, files, i) && (tb.equiv[files[i]] != 0 || tb.link[0] != 0)
    {
      AllReached(tb, defsSeen, files, i);
    }
  }

  lemma AllReached(tb: Table, defsSeen: bool, files: seq<nat>, i: nat)
    requires Scanned(tb) && InTable(tb, files) && Phase(tb, defsSeen, files).ok && i < |files| && |tb.link| > 0
    ensures Reached(tb, defsSeen, files, i) && !Endless(tb, files[i])
  {
    hide Table.Ok, Program, FilesOutput, LastNumber, Begun, Reached;
    AllBegun(tb, files, LastNumber(tb, Unnamed(tb)), i);
    ReachedIs(tb, defsSeen, files, i);
  }

  lemma {:induction false} AllBegun(tb: Table, files: seq<nat>, sec: nat, i: nat)
    requires Scanned(tb) && InTable(tb, files) && FilesOutput(tb, files, sec).ok && i < |files| && |tb.link| > 0
    ensures Begun(tb, files, sec, i) && !Endless(tb, files[i])
    decreases i
  {
    hide Table.Ok, Begun, LastNumber, FileTexts;
    BegunNext(tb, files, sec, i);
    if i > 0 {
      AllBegun(tb, files[1..], LastNumber(tb, FileTexts(tb, files[0])), i - 1);
    }
  }

  /** One unnamed section, defined in section 1, and a file for a section that has no texts: the file begins with a
      comment for the end of section 1. */
  lemma UndefinedFileBreaks(w: Writer)
    ensures var tb := Table([[], [Mark(1)]], [1, SECTION_FLAG], [0, 0]);
      && Scanned(tb) && Phase(tb, true, [1]).ok
      && NestWritten(WriteAll(w, Phase(tb, true, [1]).events).1, []) != Opened([])
  {
    hide WriteAll, NestWritten;
    var tb := Table([[], [Mark(1)]], [1, SECTION_FLAG], [0, 0]);
    assert tb.texts[1] == [Mark(1)] && NoMarks(tb.texts[1][1..]);
    assert WellFormed(tb.texts[1][1..], false);
    assert Scanned(tb);
    assert Chain(tb, 1) == [1];
    BodyOk(tb, tb.texts[1], STACK_SIZE - 1);
    SectionOk(tb, [1], STACK_SIZE - 1);
    var files: seq<nat> := [1];
    assert files[1..] == [];
    assert FileTexts(tb, 1) == [1] && Unnamed(tb) == [1];
    assert FileOutput(tb, 1, 1).ok && FilesOutput(tb, files, LastNumber(tb, [1])).ok;
    FinishedNestsIff(tb, true, files, w);
  }
}
