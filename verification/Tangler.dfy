/** CTANGLE: storing replacement texts, and writing the program, on the arrays that both phases share. */
module Tanglers {
  import opened Bytes
  import opened TangleTokens
  import opened TangleExpansion
  import opened TangleWriter
  import opened TangleMachine
  import opened TangleSections
  import opened TangleRuns
  import opened TanglePrograms

  /** How phase two ends: at its end, with a fatal error, or not at all. */
  datatype Outcome = Finished | FatalError | NeverEnds

  class Tangler {
    /** `tok_mem` and the starts of the texts in it; the last start is that of the next text. */
    var tokMem: seq<Byte>
    var tokStart: seq<nat>
    var textLink: seq<nat>
    /** The first text of each section name, 0 if there is none. */
    var equiv: seq<nat>
    var lastUnnamed: nat

    /** `cur_state`. */
    var curEnd: nat
    var curByte: nat
    var curName: nat
    var curRepl: nat
    var curSection: nat
    const stack: array<Frame>
    var stackPtr: nat

    var curVal: int
    var outState: OutState
    var protect: bool
    var effects: seq<Effect>

    ghost var texts: seq<seq<Token>>
    /** The section that each text belongs to. */
    ghost var owner: seq<nat>

    ghost function Texts(): Table
      reads this
    {
      Table(texts, textLink, equiv)
    }

    ghost function Mem(): Memory
      reads this
    {
      Memory(tokMem, tokStart, Texts())
    }

    function CurState(): Frame
      reads this
    {
      Frame(curEnd, curByte, curName, curRepl, curSection)
    }

    ghost function Now(): Run
      reads this, stack
    {
      if stackPtr == 0 || stackPtr > stack.Length then Halted
      else Running(CurState(), stack[1..stackPtr], outState.Verbatim?)
    }

    function Writing(): Writer
      reads this
    {
      Writer(outState, protect)
    }

    ghost predicate Stored()
      reads this
    {
      Mem().Ok() && stack.Length == STACK_SIZE + 1 && stackPtr <= STACK_SIZE
    }

    /** Ready to write the rest of the program. */
    ghost predicate Valid()
      reads this, stack
    {
      Stored() && RunOk(Mem(), Now()) && !protect && (stackPtr == 0 ==> !outState.Verbatim?)
    }

    /** The state between sections of the web file. */
    ghost predicate Scanning()
      reads this
    {
      Stored() && Between(Mem(), owner, lastUnnamed) && !protect && outState.Normal?
    }

    constructor ()
      ensures Scanning() && texts == [[]] && equiv == [0] && effects == []
    {
      tokMem := [];
      tokStart := [0, 0];
      textLink := [0];
      equiv := [0];
      lastUnnamed := 0;
      stack := new Frame[STACK_SIZE + 1](_ => Frame(0, 0, 0, 0, 0));
      stackPtr := 0;
      outState := Normal;
      protect := false;
      effects := [];
      texts := [[]];
      owner := [0];
    }

    // ---------- storing texts ----------

    /** `store_two_bytes`. */
    method StoreTwoBytes(x: nat)
      requires x < 0x1_0000
      modifies this`tokMem
      ensures tokMem == old(tokMem) + TwoBytes(x)
    {
      tokMem := tokMem + [(x / 256) as Byte];
      tokMem := tokMem + [(x % 256) as Byte];
    }

    /** The part of `scan_repl` that stores one token. */
    method StoreToken(t: Token, ghost verb: bool)
      requires Fits(t, verb)
      modifies this`tokMem
      ensures tokMem == old(tokMem) + Code(t, verb)
    {
      match t {
        case Char(c) => tokMem := tokMem + [c];
        case Delim(d) => tokMem := tokMem + [d];
        case Raw(c) => tokMem := tokMem + [c];
        case Ident(n) => tokMem := tokMem + [(n / 256) as Byte + 128] + [(n % 256) as Byte];
        case Ref(n) => tokMem := tokMem + [(n / 256) as Byte + 168] + [(n % 256) as Byte];
        case Defs => tokMem := tokMem + [(DEFS / 256) as Byte + 128] + [(DEFS % 256) as Byte];
        case Mark(n) => StoreTwoBytes(0xD000 + n);
        case Line(line, file) =>
          StoreTwoBytes(0xD000);
          StoreTwoBytes(line);
          tokMem := tokMem + [(file / 256) as Byte + 128] + [(file % 256) as Byte];
      }
    }

    /** The loop of `scan_repl`. */
    method StoreTokens(ts: seq<Token>)
      requires WellFormed(ts, false)
      modifies this`tokMem
      ensures tokMem == old(tokMem) + Encode(ts, false)
    {
      hide Fits, Code, After;
      ghost var base, verb := tokMem, false;
      var i := 0;
      assert ts[i..] == ts;
      while i < |ts|
        invariant i <= |ts| && WellFormed(ts[i..], verb)
        invariant tokMem + Encode(ts[i..], verb) == base + Encode(ts, false)
      {
        assert ts[i..][0] == ts[i] && ts[i..][1..] == ts[i + 1..];
        ghost var before, rest := tokMem, Encode(ts[i + 1..], After(ts[i], verb));
        StoreToken(ts[i], verb);
        assert before + (Code(ts[i], verb) + rest) == tokMem + rest;
        verb := After(ts[i], verb);
        i := i + 1;
      }
      assert ts[i..] == [] && tokMem + [] == tokMem;
    }

    /** `scan_repl`: a new text with the tokens that the scanner finds, which is not linked yet. */
    method ScanRepl(ts: seq<Token>) returns (t: nat)
      requires Stored() && WellFormed(ts, false) && Texts().RefsIn(ts) && |textLink| < SECTION_FLAG
      modifies this`tokMem, this`tokStart, this`textLink, this`texts
      ensures t == |old(textLink)| && texts == old(texts) + [ts] && textLink == old(textLink) + [0]
      ensures tokMem == old(tokMem) + Encode(ts, false) && tokStart == old(tokStart) + [|tokMem|]
    {
      StoreTokens(ts);
      t := |textLink|;
      tokStart := tokStart + [|tokMem|];
      textLink := textLink + [0];
      texts := texts + [ts];
    }

    /** A new name, which has no texts: `init_node`. */
    method AddName() returns (n: nat)
      requires Scanning()
      modifies this`equiv
      ensures n == |old(equiv)| && equiv == old(equiv) + [0] && Scanning()
      ensures forall k: nat :: k < n ==> SectionTexts(Texts(), k) == old(SectionTexts(Texts(), k))
    {
      hide SectionTexts, Between, Memory.Ok, Table.Ok;
      ghost var m := Mem();
      n := |equiv|;
      equiv := equiv + [0];
      NameAdded(m, Mem(), owner, lastUnnamed);
      BetweenIs(Mem(), owner, lastUnnamed);
    }

    /** A macro definition: a text that is not linked. */
    method ScanMacro(ts: seq<Token>) returns (t: nat)
      requires Scanning() && WellFormed(ts, false) && Texts().RefsIn(ts) && NoMarks(ts) && |textLink| < SECTION_FLAG
      modifies this`tokMem, this`tokStart, this`textLink, this`texts, this`owner
      ensures Scanning() && t == |old(texts)| && texts == old(texts) + [ts] && textLink == old(textLink) + [0]
      ensures forall k: nat :: k < |equiv| ==> SectionTexts(Texts(), k) == old(SectionTexts(Texts(), k))
    {
      hide SectionTexts, Between, Memory.Ok, Table.Ok, NoMarks;
      ghost var m := Mem();
      BetweenIs(m, owner, lastUnnamed);
      t := ScanRepl(ts);
      MacroAdded(m, Mem(), owner, lastUnnamed, ts);
      owner := owner + [0];
      BetweenIs(Mem(), owner, lastUnnamed);
    }

    /** `scan_section`: the C text of a section with number `n` and name `p`, which is 0 for the unnamed section. */
    method ScanSection(p: nat, n: nat, body: seq<Token>) returns (t: nat)
      requires Scanning() && p < |equiv| && 0 < n < 12288 && |textLink| < SECTION_FLAG
      requires WellFormed(body, false) && NoMarks(body) && Texts().RefsIn(body)
      modifies this`tokMem, this`tokStart, this`textLink, this`equiv, this`lastUnnamed, this`texts, this`owner
      ensures Scanning() && t == |old(texts)| && texts == old(texts) + [[Mark(n)] + body] && |equiv| == |old(equiv)|
      ensures forall k: nat :: k < |equiv| ==>
                SectionTexts(Texts(), k) == old(SectionTexts(Texts(), k)) + if k == p then [t] else []
    {
      hide SectionTexts, Between, Memory.Ok, Table.Ok, NoMarks, Owned, Unnamed, Chain;
      ghost var m := Mem();
      BetweenIs(m, owner, lastUnnamed);
      var ts := [Mark(n)] + body;
      assert ts[1..] == body;
      t := ScanRepl(ts);
      ghost var m1, tb := Mem(), Texts();
      assert forall i :: 0 < i < |ts| ==> ts[i] == body[i - 1];
      BeforeLink(m, m1, owner, lastUnnamed, ts, p);
      var q: nat := 0;
      if p == 0 {
        q := lastUnnamed;
        textLink := textLink[lastUnnamed := t];
        lastUnnamed := t;
      } else if equiv[p] == 0 {
        equiv := equiv[p := t];
      } else {
        q := equiv[p];
        while textLink[q] < SECTION_FLAG
          invariant tb.Sectional(q) && Last(Chain(tb, q)) == Last(Chain(tb, equiv[p]))
          decreases |texts| - q
          modifies {}
        {
          NextInChain(tb, q);
          q := textLink[q];
        }
        NextInChain(tb, q);
        textLink := textLink[q := t];
      }
      textLink := textLink[t := SECTION_FLAG];
      SectionAdded(m, m1, Mem(), owner, old(lastUnnamed), ts, p, q);
      owner := owner + [p];
      BetweenIs(Mem(), owner, lastUnnamed);
    }

    // ---------- output ----------

    method Send(fs: seq<Effect>)
      modifies this`effects
      ensures effects == old(effects) + fs
    {
      effects := effects + fs;
    }

    /** The part of `out_char` for characters. */
    method OutPlain(c: Byte)
      requires c < 128
      modifies this`effects, this`outState
      ensures (Writing(), effects) == (WriteChar(old(Writing()), c).0, old(effects) + WriteChar(old(Writing()), c).1)
    {
      assert effects == effects + [];
      if c == NEWLINE {
        if protect {
          Send([Put(BLANK)]);
        }
        if protect || outState.Verbatim? {
          Send([Put(BACKSLASH)]);
        }
        Send([Put(NEWLINE)]);
        assert effects == old(effects) + WriteChar(old(Writing()), c).1;
        if !outState.Verbatim? {
          outState := Normal;
        }
      } else if Operator(c) != [] {
        Send(Operator(c));
        outState := Normal;
      } else if c == EQUALS {
        Send([Put(EQUALS), Put(BLANK)]);
        outState := Normal;
      } else if c == JOIN {
        outState := Unbreakable;
      } else if c == CONSTANT {
        if outState.Verbatim? {
          outState := NumOrId;
          return;
        }
        if outState.NumOrId? {
          Send([Put(BLANK)]);
        }
        outState := Verbatim;
      } else if c == STRING {
        outState := if outState.Verbatim? then Normal else Verbatim;
      } else if c == SLASH {
        Send([Put(SLASH)]);
        outState := PostSlash;
      } else {
        if c == STAR && outState.PostSlash? {
          Send([Put(BLANK)]);
        }
        Send([Put(c)]);
        assert effects == old(effects) + WriteChar(old(Writing()), c).1;
        outState := Normal;
      }
    }

    /** `out_char` for a name. */
    method OutName()
      requires curVal >= 0
      modifies this`effects, this`outState
      ensures (Writing(), effects) ==
              (Write(old(Writing()), Emit(Ident(curVal))).0, old(effects)
               + Write(old(Writing()), Emit(Ident(curVal))).1)
    {
      if outState.NumOrId? {
        Send([Put(BLANK)]);
      }
      Send([Name(curVal)]);
      outState := NumOrId;
      assert effects == old(effects) + (Gap(old(Writing())) + [Name(curVal)]);
    }

    /** `out_char` for a section number, or for the `#line` that follows the number 0. */
    method OutSection()
      requires curVal == 0 ==> curByte + 4 <= |tokMem| && tokMem[curByte + 2] >= 128
      modifies this`effects, this`outState, this`curByte, this`curVal
      ensures old(curVal) != 0 ==> curByte == old(curByte) && Writing() == old(Writing())
      ensures old(curVal) > 0 ==> effects == old(effects) + [Start(old(curVal))]
      ensures old(curVal) < 0 ==> effects == old(effects) + [End(-old(curVal))]
      ensures old(curVal) == 0 ==> curByte == old(curByte) + 4
      ensures old(curVal) == 0 && protect ==>
                (Writing(), effects) ==
                  (WriteChar(old(Writing()), NEWLINE).0, old(effects) + WriteChar(old(Writing()), NEWLINE).1)
      ensures old(curVal) == 0 && !protect ==>
                Writing() == old(Writing())
                  && effects == old(effects) + [LineMark(Pair(tokMem, old(curByte)), FileAt(tokMem, old(curByte)))]
    {
      if curVal > 0 {
        Send([Start(curVal)]);
      } else if curVal < 0 {
        Send([End(-curVal)]);
      } else if protect {
        curByte := curByte + 4;
        OutPlain(NEWLINE);
      } else {
        var a := 256 * tokMem[curByte] as nat;
        curByte := curByte + 1;
        a := a + tokMem[curByte] as nat;
        curByte := curByte + 1;
        curVal := tokMem[curByte] as int;
        curByte := curByte + 1;
        curVal := 256 * (curVal - 128) + tokMem[curByte] as int;
        curByte := curByte + 1;
        Send([LineMark(a, curVal)]);
      }
    }

    /** What has been written since the output was `fs`. */
    ghost predicate Wrote(w: Writer, fs: seq<Effect>, es: seq<Event>)
      reads this
    {
      Writing() == WriteAll(w, es).0 && effects == fs + WriteAll(w, es).1
    }

    // ---------- the stack ----------

    /** `push_level`; `named` is false for the macro definitions, which have no name. */
    method PushLevel(p: nat, named: bool) returns (ok: bool)
      requires stack.Length == STACK_SIZE + 1 && 0 < stackPtr <= STACK_SIZE
      requires named ==> p < |equiv| && equiv[p] + 1 < |tokStart|
      modifies this`curEnd, this`curByte, this`curName, this`curRepl, this`curSection, this`stackPtr, stack
      ensures ok == (old(stackPtr) < STACK_SIZE)
      ensures ok ==> stackPtr == old(stackPtr) + 1 && stack[old(stackPtr)] == old(CurState())
      ensures forall i :: 0 <= i < stack.Length && i != old(stackPtr) ==> stack[i] == old(stack[i])
      ensures ok ==> CurState() == if named then StartOf(Mem(), equiv[p], p, 0) else old(CurState())
    {
      if stackPtr == STACK_SIZE {
        return false;
      }
      stack[stackPtr] := CurState();
      stackPtr := stackPtr + 1;
      if named {
        curName, curRepl := p, equiv[p];
        curByte, curEnd := tokStart[curRepl], tokStart[curRepl + 1];
        curSection := 0;
      }
      return true;
    }

    /** `pop_level`. */
    method PopLevel(flag: bool)
      requires Stored() && 0 < stackPtr && (flag ==> curRepl < |textLink| && !outState.Verbatim?)
      requires flag && textLink[curRepl] < SECTION_FLAG ==> textLink[curRepl] + 1 < |tokStart|
      modifies this`curEnd, this`curByte, this`curName, this`curRepl, this`curSection, this`stackPtr
      ensures stackPtr <= STACK_SIZE
      ensures flag ==> Now() == Popped(Mem(), old(Now())) && (stackPtr == 0 ==> curSection == old(curSection))
      ensures !flag ==> stackPtr == old(stackPtr) - 1 && CurState() == if stackPtr > 0 then stack[stackPtr]
              else old(CurState())
    {
      if flag && textLink[curRepl] < SECTION_FLAG {
        curRepl := textLink[curRepl];
        curByte, curEnd := tokStart[curRepl], tokStart[curRepl + 1];
        return;
      }
      stackPtr := stackPtr - 1;
      if stackPtr > 0 {
        var f := stack[stackPtr];
        curEnd, curByte, curName, curRepl, curSection := f.end, f.byte, f.name, f.repl, f.section;
        assert stack[1..old(stackPtr)][..stackPtr - 1] == stack[1..stackPtr];
      }
    }

    /** What `get_output` and `output_defs` do with a token that is neither a section name nor `@h`; `a` is its first
        byte, or the value of its first two bytes if `wide`. */
    method PutToken(a: nat, wide: bool, ghost start: nat, ghost t: Token, ghost size: nat)
      requires start < curByte <= curEnd <= |tokMem| && !t.Ref? && !t.Defs?
      requires ReadToken(tokMem[start..curEnd], outState.Verbatim?) == Read(t, size) && Fits(t, outState.Verbatim?)
      requires curByte == start + (if wide then 2 else 1)
      requires wide == (!t.Raw? && tokMem[start] >= 128)
      requires a == if wide then (tokMem[start] as nat - 128) * 256 + tokMem[start + 1] as nat else tokMem[start] as nat
      modifies this`curByte, this`curVal, this`curSection, this`outState, this`effects
      ensures curByte == start + size && curSection == if t.Mark? then t.n else old(curSection)
      ensures outState.Verbatim? == After(t, old(outState.Verbatim?))
      ensures var e := Emit(Protected(t, protect));
        (Writing(), effects) == (Write(old(Writing()), e).0, old(effects) + Write(old(Writing()), e).1)
    {
      VerbatimFollows(Writing(), Protected(t, protect));
      hide WriteChar;
      if wide {
        if a < NAMES {
          curVal := a;
          OutName();
        } else {
          curVal := a - NUMBERS;
          if curVal > 0 {
            curSection := curVal;
          }
          OutSection();
        }
      } else if outState.Verbatim? && a != 2 && a != 3 && a != 10 {
        Send([Copy(a as Byte)]);
      } else {
        OutPlain(a as Byte);
      }
    }

    /** One step of the macro definitions: a token of a text, of which `ts` is left. */
    method DefineToken(ghost ts: seq<Token>) returns (ok: bool, last: bool)
      requires curByte < curEnd <= |tokMem| && protect
      requires Decode(tokMem[curByte..curEnd], outState.Verbatim?) == Decoded(ts)
      modifies this`curByte, this`curVal, this`curSection, this`outState, this`effects
      ensures ok ==> old(curByte) < curByte <= curEnd && ts != []
      ensures ok && last ==>
              ts == [Char(NEWLINE)] && !outState.Verbatim? && Writing() == old(Writing()) && effects == old(effects)
      ensures ok && !last ==>
                && ts != [Char(NEWLINE)] && !ts[0].Ref? && !ts[0].Defs?
                && Decode(tokMem[curByte..curEnd], outState.Verbatim?) == Decoded(ts[1..])
                && var e := Emit(Protected(ts[0], true));
                   (Writing(), effects) == (Write(old(Writing()), e).0, old(effects) + Write(old(Writing()), e).1)
      ensures !ok ==> ts != [] && (ts[0].Ref? || ts[0].Defs?) && Writing() == old(Writing()) && effects == old(effects)
    {
      hide Decode, Write, ReadToken, Fits;
      ghost var rd := ReadToken(tokMem[curByte..curEnd], outState.Verbatim?);
      ghost var start := curByte;
      TokenHead(tokMem, curByte, curEnd, outState.Verbatim?, ts);
      TokenKind(tokMem, curByte, curEnd, outState.Verbatim?, rd.token, rd.size);
      ok, last := true, false;
      var a: nat := tokMem[curByte] as nat;
      curByte := curByte + 1;
      if curByte == curEnd && a == 10 {
        last := true;
        return;
      }
      var wide := !(outState.Verbatim? && a != 2 && a != 3 && a != 10) && a >= 128;
      if wide {
        a := (a - 128) * 256 + tokMem[curByte] as nat;
        curByte := curByte + 1;
        if NAMES <= a < NUMBERS {
          ok := false;
          return;
        }
      }
      PutToken(a, wide, start, rd.token, rd.size);
    }

    /** The text of one macro. */
    method DefineBody(t: nat) returns (ok: bool, ghost es: seq<Event>)
      requires Mem().Ok() && t < |textLink| && protect && outState.Normal?
      modifies this`curByte, this`curEnd, this`curVal, this`curSection, this`outState, this`effects
      ensures MacroBody(texts[t]) == Output(es, ok)
      ensures Wrote(old(Writing()), old(effects), es) && protect
      ensures ok ==> !outState.Verbatim?
    {
      hide WriteChar, Write, WriteAll, Decode, MacroBody, Memory.Ok;
      TablesFit(Mem());
      ghost var w, fs := Writing(), effects;
      ghost var ts := texts[t];
      ThenAssoc(MacroBody(ts), Done(), Done());
      StoredDecodes(Mem(), t);
      curByte := tokStart[t];
      curEnd := tokStart[t + 1];
      es := [];
      WriteOne(w, MacroEnd);
      ok := true;
      var last := false;
      while curByte < curEnd && !last
        invariant curByte <= curEnd <= |tokMem| && protect
        invariant if last then ts == [Char(NEWLINE)] && !outState.Verbatim?
                  else Decode(tokMem[curByte..curEnd], outState.Verbatim?) == Decoded(ts)
        invariant MacroBody(texts[t]) == Then(Output(es, true), MacroBody(ts))
        invariant Wrote(w, fs, es)
        decreases curEnd - curByte
      {
        ghost var w1, fs1 := Writing(), effects;
        ok, last := DefineToken(ts);
        MacroBodyNext(ts);
        if !ok {
          return;
        }
        if !last {
          ghost var e := Emit(Protected(ts[0], true));
          WroteMore(w, fs, es, w1, fs1, e, Writing(), effects);
          ThenAssoc(Output(es, true), One(e), MacroBody(ts[1..]));
          es := es + [e];
          ts := ts[1..];
        }
      }
      MacroBodyNext(ts);
      if !last {
        DecodedEnd(tokMem, curEnd, outState.Verbatim?, ts);
      }
      OnlyThen(Output(es, true));
    }

    /** The definition of one macro. */
    method DefineMacro(t: nat) returns (ok: bool, ghost body: seq<Event>)
      requires Mem().Ok() && t < |textLink| && !protect
      modifies this`curByte, this`curEnd, this`curVal, this`curSection, this`outState, this`protect, this`effects
      ensures MacroBody(texts[t]) == Output(body, ok)
      ensures Wrote(old(Writing()), old(effects), Defined(body, ok))
      ensures ok ==> !protect && !outState.Verbatim?
    {
      hide WriteChar, MacroBody;
      ghost var w, fs := Writing(), effects;
      WriteOne(w, MacroStart);
      Send([Define]);
      outState := Normal;
      protect := true;
      ghost var w1, fs1 := Writing(), effects;
      assert [] + [MacroStart] == [MacroStart];
      ok, body := DefineBody(t);
      WroteAll(w, fs, [MacroStart], w1, fs1, body, Writing(), effects);
      assert Defined(body, false) == [MacroStart] + body;
      if ok {
        ghost var w2, fs2 := Writing(), effects;
        protect := false;
        Send([Put(NEWLINE)]);
        WroteMore(w, fs, [MacroStart] + body, w2, fs2, MacroEnd, Writing(), effects);
      }
    }

    /** `output_defs`: the definitions of all macros, with the state of the output put aside and back again. */
    method OutputDefs() returns (ok: bool, ghost es: seq<Event>)
      requires Stored() && 0 < stackPtr && !protect
      modifies this`curEnd, this`curByte, this`curName, this`curRepl, this`curSection, this`stackPtr, stack
      modifies this`curVal, this`outState, this`protect, this`effects
      ensures Wrote(old(Writing()), old(effects), es)
      ensures ok ==> stackPtr == old(stackPtr) && CurState() == old(CurState()) && !protect
      ensures ok ==> outState.Verbatim? ==> old(outState.Verbatim?)
      ensures forall i :: 0 <= i < stack.Length && i != old(stackPtr) ==> stack[i] == old(stack[i])
      ensures ok ==> old(stackPtr) < STACK_SIZE && Macros(Texts(), 1) == Output(es, true)
      ensures !ok ==> if old(stackPtr) == STACK_SIZE then es == [] else Macros(Texts(), 1) == Output(es, false)
    {
      hide WriteChar, Write, WriteAll, MacroBody, Memory.Ok, Table.Ok;
      TablesFit(Mem());
      ghost var w, fs, m := Writing(), effects, Mem();
      es := [];
      WriteOne(w, MacroEnd);
      ok := PushLevel(0, false);
      if !ok {
        return;
      }
      var t := 1;
      while t < |textLink|
        invariant 1 <= t <= |textLink| && !protect
        invariant Macros(m.table, 1) == Then(Output(es, true), Macros(m.table, t))
        invariant Wrote(w, fs, es)
        invariant outState.Verbatim? ==> old(outState.Verbatim?)
        modifies this`curByte, this`curEnd, this`curVal, this`curSection, this`outState, this`protect, this`effects
      {
        if textLink[t] == 0 {
          ghost var w1, fs1 := Writing(), effects;
          ghost var body;
          ok, body := DefineMacro(t);
          WroteAll(w, fs, es, w1, fs1, Defined(body, ok), Writing(), effects);
          MacroDone(m.table, t, es, body, ok);
          es := es + Defined(body, ok);
          if !ok {
            return;
          }
        }
        t := t + 1;
      }
      PopLevel(false);
    }

    // ---------- expansion ----------

    /** The end of a text in `get_output`. */
    method EndText() returns (again: bool, ghost es: seq<Event>)
      requires Stored() && 0 < stackPtr && curByte == curEnd && curRepl < |textLink| && !outState.Verbatim? && !protect
      requires textLink[curRepl] < SECTION_FLAG ==> textLink[curRepl] + 1 < |tokStart|
      modifies this`curEnd, this`curByte, this`curName, this`curRepl, this`curSection, this`stackPtr, this`curVal
      modifies this`outState, this`effects
      ensures Stored() && Now() == Popped(Mem(), old(Now())) && (stackPtr == 0 ==> curSection == old(curSection))
      ensures es == CloseEvents(old(curSection)).events && again == (es == []) && !outState.Verbatim?
      ensures Wrote(old(Writing()), old(effects), es)
    {
      hide Memory.Ok, WriteAll, Write, Popped;
      ghost var r := Now();
      WriteOne(Writing(), Close(curSection));
      SimpleWrites(Writing(), curSection);
      curVal := -(curSection as int);
      PopLevel(true);
      es := CloseEvents(r.cur.section).events;
      if curVal == 0 {
        return true, es;
      }
      OutSection();
      return false, es;
    }

    /** A section name or `@h` in `get_output`. */
    method Refer(b: nat, ghost r: Run, ghost t: Token) returns (ok: bool, again: bool, ghost es: seq<Event>)
      requires Stored() && 0 < stackPtr && !protect && !outState.Verbatim? && RunOk(Mem(), r) && r.Running?
      requires r.cur.byte < r.cur.end && ReadToken(tokMem[r.cur.byte..r.cur.end], false) == Read(t, 2)
      requires (t.Defs? && b == DEFS) || (NAMES <= b < DEFS && t == Ref(b - NAMES))
      requires r == Running(CurState().(byte := r.cur.byte), stack[1..stackPtr], false) && curByte == r.cur.byte + 2
      modifies this`curEnd, this`curByte, this`curName, this`curRepl, this`curSection, this`stackPtr, stack
      modifies this`curVal, this`outState, this`protect, this`effects
      ensures Wrote(old(Writing()), old(effects), es)
      ensures Turn(Mem(), r) == if ok then Went(Now(), es) else Stopped(es)
      ensures ok ==> Stored() && 0 < stackPtr && !protect
    {
      hide Memory.Ok, RunOk, Total, TotalSteps, WriteAll, Write, Passed, Pushed, ReadToken, Macros;
      ghost var m := Mem();
      ReadStep(m, r);
      PassedReference(r, t, 2);
      WriteOne(Writing(), MacroStart);
      if b == DEFS {
        ok, es := OutputDefs();
        assert ok ==> stack[1..stackPtr] == r.saved;
        return ok, false, es;
      }
      var a := b - NAMES;
      es := [];
      EquivInRange(m, a);
      if equiv[a] != 0 {
        ok := PushLevel(a, true);
        if ok {
          PushedIs(m, r, a, 2);
          assert stack[1..stackPtr] == r.saved + [r.cur.(byte := r.cur.byte + 2)];
        }
        return ok, true, es;
      }
      if a != 0 {
        SimpleWrites(Writing(), a);
        WriteOne(Writing(), Missing(a));
        Send([Complain(a)]);
        es := [Missing(a)];
      }
      return true, true, es;
    }

    /** A token in `get_output` that is neither a section name nor `@h`. */
    method TakePlain(a: nat, wide: bool, ghost r: Run, ghost t: Token, ghost size: nat)
      requires 0 < stackPtr <= stack.Length && r.Running? && !protect
      requires r == Running(CurState().(byte := r.cur.byte), stack[1..stackPtr], outState.Verbatim?)
      requires r.cur.byte < curByte <= curEnd <= |tokMem| && !t.Ref? && !t.Defs?
      requires ReadToken(tokMem[r.cur.byte..curEnd], r.verb) == Read(t, size) && Fits(t, r.verb)
      requires curByte == r.cur.byte + (if wide then 2 else 1)
      requires wide == (!t.Raw? && tokMem[r.cur.byte] >= 128)
      requires a == if wide then (tokMem[r.cur.byte] as nat - 128) * 256 + tokMem[r.cur.byte + 1] as nat
                    else tokMem[r.cur.byte] as nat
      modifies this`curByte, this`curVal, this`curSection, this`outState, this`effects
      ensures Now() == Passed(r, t, size) && Wrote(old(Writing()), old(effects), [Emit(t)])
    {
      hide WriteAll, Write, Passed, ReadToken, Fits;
      PassedIs(r, t, size);
      WriteOne(Writing(), Emit(t));
      PutToken(a, wide, r.cur.byte, t, size);
    }

    /** A token in `get_output`. */
    method TakeToken() returns (ok: bool, again: bool, ghost es: seq<Event>)
      requires Valid() && 0 < stackPtr && curByte < curEnd
      modifies this`curEnd, this`curByte, this`curName, this`curRepl, this`curSection, this`stackPtr, stack
      modifies this`curVal, this`outState, this`protect, this`effects
      ensures Wrote(old(Writing()), old(effects), es)
      ensures old(Turn(Mem(), Now())) == if ok then Went(Now(), es) else Stopped(es)
      ensures ok ==> Stored() && 0 < stackPtr && !protect
    {
      hide Memory.Ok, RunOk, WriteAll, Write, Passed, ReadToken, Taken, Turn, FrameOk, InText, Fits, After,
           Memory.Stored,
        Table.Ok, Rest;
      ghost var m, r := Mem(), Now();
      RunningInText(m, r);
      TurnIs(m, r);
      ghost var rd := ReadToken(m.mem[r.cur.byte..r.cur.end], r.verb);
      ReadStep(m, r);
      TokenKind(m.mem, r.cur.byte, r.cur.end, r.verb, rd.token, rd.size);
      var a: nat := tokMem[curByte] as nat;
      curByte := curByte + 1;
      var wide := !(outState.Verbatim? && a != 2 && a != 3 && a != 10) && a >= 128;
      if wide {
        a := (a - 128) * 256 + tokMem[curByte] as nat;
        curByte := curByte + 1;
      }
      if wide && NAMES <= a < NUMBERS {
        ok, again, es := Refer(a, r, rd.token);
      } else {
        TakenPlain(m, r, rd.token, rd.size);
        TakePlain(a, wide, r, rd.token, rd.size);
        ok, again, es := true, false, [Emit(rd.token)];
      }
    }

    /** One turn of `get_output`; `again` tells whether it goes back to its start. */
    method Round() returns (ok: bool, again: bool, ghost es: seq<Event>)
      requires Valid() && 0 < stackPtr
      modifies this`curEnd, this`curByte, this`curName, this`curRepl, this`curSection, this`stackPtr, stack
      modifies this`curVal, this`outState, this`protect, this`effects
      ensures Wrote(old(Writing()), old(effects), es)
      ensures old(Turn(Mem(), Now())) == if ok then Went(Now(), es) else Stopped(es)
      ensures ok ==> Valid() && (stackPtr == 0 ==> curSection == old(curSection))
    {
      hide Memory.Ok, RunOk, Total, TotalSteps, WriteAll, Write, Popped, Taken, Turn, FrameOk, ReadToken;
      TurnTotal(Mem(), Now());
      TurnIs(Mem(), Now());
      if curByte == curEnd {
        ok := true;
        again, es := EndText();
      } else {
        ok, again, es := TakeToken();
      }
    }

    /** `cur_section` when everything that is still to come has been written. */
    ghost function NumberLeft(): nat
      requires Valid()
      reads this, stack
    {
      if stackPtr == 0 then curSection else Left(Mem(), Now())
    }

    /** `get_output`: write one token, or the end of a section. If `ok` is not set, there was a fatal error. */
    method GetOutput() returns (ok: bool, ghost es: seq<Event>)
      requires Valid()
      modifies this`curEnd, this`curByte, this`curName, this`curRepl, this`curSection, this`stackPtr, stack
      modifies this`curVal, this`outState, this`protect, this`effects
      ensures Wrote(old(Writing()), old(effects), es)
      ensures ok ==> Valid() && Mem() == old(Mem()) && NumberLeft() == old(NumberLeft())
      ensures ok ==> old(Total(Mem(), Now())) == Then(Output(es, true), Total(Mem(), Now()))
      ensures ok && old(stackPtr) > 0 ==> TotalSteps(Mem(), Now()) < old(TotalSteps(Mem(), Now()))
      ensures !ok ==> old(Total(Mem(), Now())) == Output(es, false)
    {
      hide Memory.Ok, RunOk, Total, TotalSteps, WriteAll, Write, Turn, Left;
      ghost var m, r0, w, fs := Mem(), Now(), Writing(), effects;
      es := [];
      ok := true;
      WriteOne(w, MacroEnd);
      ThenAssoc(Total(m, r0), Done(), Done());
      var again := true;
      while again && stackPtr > 0
        invariant ok && Valid() && Mem() == m && Wrote(w, fs, es) && NumberLeft() == old(NumberLeft())
        invariant Total(m, r0) == Then(Output(es, true), Total(m, Now()))
        invariant (again && Now() == r0) || TotalSteps(m, Now()) < TotalSteps(m, r0)
        decreases TotalSteps(m, Now())
      {
        ghost var r, w1, fs1 := Now(), Writing(), effects;
        ghost var more;
        TurnTotal(m, r);
        ok, again, more := Round();
        WroteAll(w, fs, es, w1, fs1, more, Writing(), effects);
        if !ok {
          ThenAssoc(Output(es, true), Output(more, false), Done());
          es := es + more;
          return;
        }
        TurnLeft(m, r);
        ThenAssoc(Output(es, true), Output(more, true), Total(m, Now()));
        es := es + more;
      }
    }

    /** The loop of `phase_two`: write everything that is still to come. */
    method WriteAllOutput() returns (ok: bool, ghost es: seq<Event>)
      requires Valid()
      modifies this`curEnd, this`curByte, this`curName, this`curRepl, this`curSection, this`stackPtr, stack
      modifies this`curVal, this`outState, this`protect, this`effects
      ensures Wrote(old(Writing()), old(effects), es)
      ensures old(Total(Mem(), Now())) == Output(es, ok)
      ensures ok ==> Stored() && stackPtr == 0 && !protect && !outState.Verbatim? && Mem() == old(Mem())
      ensures ok ==> curSection == old(NumberLeft())
    {
      hide Memory.Ok, RunOk, Total, TotalSteps, WriteAll, Write, Left;
      ghost var m, r0, w, fs := Mem(), Now(), Writing(), effects;
      es := [];
      ok := true;
      WriteOne(w, MacroEnd);
      ThenAssoc(Total(m, r0), Done(), Done());
      while stackPtr > 0
        invariant ok && Valid() && Mem() == m && Wrote(w, fs, es) && NumberLeft() == old(NumberLeft())
        invariant Total(m, r0) == Then(Output(es, true), Total(m, Now()))
        decreases TotalSteps(m, Now())
      {
        ghost var w1, fs1 := Writing(), effects;
        ghost var more;
        ok, more := GetOutput();
        WroteAll(w, fs, es, w1, fs1, more, Writing(), effects);
        if !ok {
          es := es + more;
          return;
        }
        ThenAssoc(Output(es, true), Output(more, true), Total(m, Now()));
        es := es + more;
      }
      HaltedIsDone(m);
    }

    /** The start of text `t` of the section `name` as the only level of the stack. */
    method StartText(name: nat, t: nat)
      requires Stored() && t + 1 < |tokStart|
      modifies this`curEnd, this`curByte, this`curName, this`curRepl, this`stackPtr
      ensures stackPtr == 1 && CurState() == StartOf(Mem(), t, name, curSection)
    {
      stackPtr := 1;
      curName, curRepl := name, t;
      curByte, curEnd := tokStart[t], tokStart[t + 1];
    }

    /** The part of `phase_two` that writes the C file. */
    method WriteProgram(defsSeen: bool) returns (ok: bool, ghost es: seq<Event>)
      requires Stored() && Scanned(Texts()) && !protect && outState.Normal?
      modifies this`curEnd, this`curByte, this`curName, this`curRepl, this`curSection, this`stackPtr, stack
      modifies this`curVal, this`outState, this`protect, this`effects
      ensures Wrote(old(Writing()), old(effects), es)
      ensures Output(es, ok) == Program(Texts(), defsSeen)
      ensures ok ==> Stored() && !protect && !outState.Verbatim? && curSection == LastNumber(Texts(), Unnamed(Texts()))
    {
      hide Memory.Ok, RunOk, Total, TotalSteps, WriteAll, Write, Macros, Section, Table.Ok, Chain, LastNumber, Left;
      ghost var m, w, fs := Mem(), Writing(), effects;
      TableIs(m);
      UnnamedSectional(m.table);
      NoNumber(m.table);
      curSection := 0;
      StartText(0, textLink[0]);
      ok, es := true, [];
      WriteOne(w, MacroEnd);
      assert fs + [] == fs;
      if !defsSeen {
        ok, es := OutputDefs();
        OnlyThen(Macros(m.table, 1));
        if !ok {
          return;
        }
      }
      if textLink[0] == 0 {
        return;
      }
      ghost var w1, fs1 := Writing(), effects;
      ghost var more;
      LevelStarts(m, textLink[0], 0, 0);
      assert stack[1..1] == [];
      ok, more := WriteAllOutput();
      WroteAll(w, fs, es, w1, fs1, more, Writing(), effects);
      es := es + more;
      if !ok {
        return;
      }
      ghost var w2, fs2 := Writing(), effects;
      Send([Put(NEWLINE)]);
      FileEndIs(w2);
      WroteMore(w, fs, es, w2, fs2, FileEnd, Writing(), effects);
      es := es + [FileEnd];
    }

    /** Another output file, for section `f`. If that section has no texts, the unnamed section is written instead,
        after the comment for the end of a section that is left over from before. */
    method WriteFile(f: nat) returns (ok: bool, ghost es: seq<Event>)
      requires Stored() && Scanned(Texts()) && !protect && !outState.Verbatim?
      requires f < |equiv| && stackPtr == 1 && CurState() == StartOf(Mem(), equiv[f], f, curSection)
      requires equiv[f] != 0 || textLink[0] != 0
      modifies this`curEnd, this`curByte, this`curName, this`curRepl, this`curSection, this`stackPtr, stack
      modifies this`curVal, this`outState, this`protect, this`effects
      ensures Wrote(old(Writing()), old(effects), es)
      ensures Output(es, ok) == FileOutput(Texts(), f, old(curSection))
      ensures ok ==> Stored() && !protect && !outState.Verbatim?
      ensures ok ==> curSection == LastNumber(Texts(), FileTexts(Texts(), f))
    {
      hide Memory.Ok, RunOk, Total, TotalSteps, WriteAll, Write, FileOutput, Table.Ok, Chain, LastNumber, Left,
           FileTexts;
      ghost var m, w, fs := Mem(), Writing(), effects;
      TableIs(m);
      FileStarts(m, f, curSection);
      assert stack[1..1] == [] && Now() == FileRun(m, f, curSection);
      ok, es := WriteAllOutput();
      if ok {
        ghost var w1, fs1 := Writing(), effects;
        Send([Put(NEWLINE)]);
        FileEndIs(w1);
        WroteMore(w, fs, es, w1, fs1, FileEnd, Writing(), effects);
        es := es + [FileEnd];
      }
    }

    /** The part of `phase_two` that opens and writes another output file. */
    method NextFile(f: nat) returns (outcome: Outcome, ghost es: seq<Event>)
      requires Stored() && Scanned(Texts()) && !protect && !outState.Verbatim? && f < |equiv| && |textLink| > 0
      modifies this`curEnd, this`curByte, this`curName, this`curRepl, this`curSection, this`stackPtr, stack
      modifies this`curVal, this`outState, this`protect, this`effects
      ensures Wrote(old(Writing()), old(effects), es)
      ensures Output(es, outcome.Finished?) == Then(One(FileStart(f)), FileOutput(Texts(), f, old(curSection)))
      ensures outcome.NeverEnds? <==> Endless(Texts(), f)
      ensures outcome.NeverEnds? ==> Stuck(Mem(), Now())
      ensures outcome.Finished? ==> Stored() && !protect && !outState.Verbatim?
      ensures outcome.Finished? ==> curSection == LastNumber(Texts(), FileTexts(Texts(), f))
    {
      hide Memory.Ok, WriteAll, Write, Table.Ok, FileOutput, LastNumber, FileTexts, Stuck;
      ghost var m, w, fs := Mem(), Writing(), effects;
      TableIs(m);
      Send([NewFile(f)]);
      FileEndIs(w);
      WriteOne(w, FileStart(f));
      StartText(f, equiv[f]);
      es := [FileStart(f)];
      if equiv[f] == 0 && textLink[0] == 0 {
        EndlessStuck(m, f, curSection);
        EndlessWrites(m.table, f, curSection);
        assert stack[1..1] == [] && Now() == FileRun(m, f, curSection);
        return NeverEnds, es;
      }
      ghost var w1, fs1 := Writing(), effects;
      ghost var written;
      var ok;
      ok, written := WriteFile(f);
      WroteAll(w, fs, es, w1, fs1, written, Writing(), effects);
      es := es + written;
      outcome := if ok then Finished else FatalError;
    }

    /** `phase_two`. Where it does not come to an end, `es` is what has been written when it comes to the state in which
        `get_output` does not change anything any more. */
    method PhaseTwo(defsSeen: bool, files: seq<nat>) returns (outcome: Outcome, ghost es: seq<Event>)
      requires Stored() && Scanned(Texts()) && !protect && outState.Normal? && InTable(Texts(), files)
      modifies this`curEnd, this`curByte, this`curName, this`curRepl, this`curSection, this`stackPtr, stack
      modifies this`curVal, this`outState, this`protect, this`effects
      ensures Wrote(old(Writing()), old(effects), es)
      ensures Output(es, outcome.Finished?) == Phase(Texts(), defsSeen, files)
      ensures outcome.NeverEnds? <==> !PhaseTwoHalts(old(Mem()), defsSeen, files)
      ensures outcome.NeverEnds? ==> Mem() == old(Mem()) && Stuck(Mem(), Now())
    {
      hide Memory.Ok, WriteAll, Write, Table.Ok, Program, FileOutput, LastNumber, FileTexts, FilesHalt, FilesOutput,
           Stuck, Scanned,
        PhaseTwoHalts, Unnamed;
      ghost var m, w, fs := Mem(), Writing(), effects;
      TableIs(m);
      PhaseStarts(m, defsSeen, files);
      var ok;
      ok, es := WriteProgram(defsSeen);
      outcome := if ok then Finished else FatalError;
      var i := 0;
      assert files[0..] == files;
      while i < |files| && outcome.Finished?
        invariant i <= |files| && Wrote(w, fs, es) && Mem() == m
        invariant outcome.Finished? ==> Stored() && !protect && !outState.Verbatim?
        invariant outcome.NeverEnds? ==> Stuck(Mem(), Now())
        invariant Phase(m.table, defsSeen, files) ==
                  if outcome.Finished? then Then(Output(es, true), FilesOutput(m.table, files[i..], curSection))
                    else Output(es, false)
        invariant PhaseTwoHalts(m, defsSeen, files) <==>
                  if outcome.Finished? then FilesHalt(m, files[i..], curSection) else outcome.FatalError?
        decreases |files| - i
      {
        ghost var before, rest, sec := es, files[i..], curSection;
        assert rest[0] == files[i] && rest[1..] == files[i + 1..];
        ghost var w1, fs1 := Writing(), effects;
        ghost var more;
        outcome, more := NextFile(files[i]);
        WroteAll(w, fs, es, w1, fs1, more, Writing(), effects);
        FileStep(m, es, rest, sec, more, outcome.Finished?);
        es := es + more;
        i := i + 1;
      }
      NoMoreFiles(m, es, curSection);
    }
  }

  lemma PhaseStarts(m: Memory, defsSeen: bool, files: seq<nat>)
    requires m.Ok() && Scanned(m.table) && InTable(m.table, files)
    ensures |m.table.link| > 0
    ensures var o, left := Program(m.table, defsSeen), LastNumber(m.table, Unnamed(m.table));
      && Phase(m.table, defsSeen, files) == Then(o, FilesOutput(m.table, files, left))
      && (PhaseTwoHalts(m, defsSeen, files) <==> (o.ok ==> FilesHalt(m, files, left)))
  {
    hide Memory.Ok, Table.Ok, Program, FilesHalt, FilesOutput, Halts, LastNumber, RunOk, Stuck;
    MainPlaced(m);
    if m.table.link[0] != 0 {
      HaltsIff(m, MainRun(m));
      MainNotStuck(m);
    }
  }

  /** What the next file takes away from what is to come. */
  lemma FileStep(m: Memory, es: seq<Event>, files: seq<nat>, sec: nat, more: seq<Event>, ok: bool)
    requires m.Ok() && Scanned(m.table) && InTable(m.table, files) && files != [] && |m.table.link| > 0
    requires Output(more, ok) == Then(One(FileStart(files[0])), FileOutput(m.table, files[0], sec))
    ensures var left := LastNumber(m.table, FileTexts(m.table, files[0]));
      && Then(Output(es, true), FilesOutput(m.table, files, sec)) ==
           (if ok then Then(Output(es + more, true), FilesOutput(m.table, files[1..], left))
            else Output(es + more, false))
      && (FilesHalt(m, files, sec) <==>
            if ok then FilesHalt(m, files[1..], left) else !Endless(m.table, files[0]))
  {
    hide Memory.Ok, Table.Ok, FileOutput, Halts, LastNumber, FileTexts, Stuck, Placed, FilesHalt;
    FilesHaltNext(m, files, sec);
    var f, left := files[0], LastNumber(m.table, FileTexts(m.table, files[0]));
    var o, rest := FileOutput(m.table, f, sec), FilesOutput(m.table, files[1..], left);
    ThenAssoc(One(FileStart(f)), o, rest);
    ThenAssoc(Output(es, true), Output(more, ok), rest);
    if Endless(m.table, f) {
      EndlessWrites(m.table, f, sec);
    }
  }

  lemma FilesHaltNext(m: Memory, files: seq<nat>, sec: nat)
    requires m.Ok() && Scanned(m.table) && InTable(m.table, files) && files != [] && |m.table.link| > 0
    ensures FilesHalt(m, files, sec) <==>
              && !Endless(m.table, files[0])
              && (FileOutput(m.table, files[0], sec).ok ==>
                    FilesHalt(m, files[1..], LastNumber(m.table, FileTexts(m.table, files[0]))))
  {
    hide Memory.Ok, Table.Ok, FileOutput, Halts, LastNumber, FileTexts, Stuck, Placed;
    FilePlaced(m, files[0], sec);
    HaltsIff(m, FileRun(m, files[0], sec));
  }

  lemma NoMoreFiles(m: Memory, es: seq<Event>, sec: nat)
    requires m.Ok() && Scanned(m.table)
    ensures FilesHalt(m, [], sec) && Then(Output(es, true), FilesOutput(m.table, [], sec)) == Output(es, true)
  {
  }

  lemma EndlessWrites(tb: Table, f: nat, sec: nat)
    requires Scanned(tb) && f < |tb.equiv| && |tb.link| > 0 && Endless(tb, f)
    ensures FileOutput(tb, f, sec) == Fatal()
  {
  }

  lemma NoNumber(tb: Table)
    requires Scanned(tb)
    ensures |tb.link| > 0 && (tb.link[0] == 0 ==> LastNumber(tb, Unnamed(tb)) == 0)
  {
  }

  lemma TurnIs(m: Memory, r: Run)
    requires m.Ok() && RunOk(m, r) && r.Running?
    ensures r.cur.byte <= r.cur.end <= |m.mem|
    ensures if r.cur.byte == r.cur.end then
              && r.cur.repl < |m.table.link| && !r.verb
              && (m.table.link[r.cur.repl] < SECTION_FLAG ==> m.table.link[r.cur.repl] + 1 < |m.starts|)
              && Turn(m, r) == Went(Popped(m, r), CloseEvents(r.cur.section).events)
            else
              var rd := ReadToken(m.mem[r.cur.byte..r.cur.end], r.verb);
              && rd.Read? && (rd.token.Ref? ==> rd.token.n < |m.table.equiv|)
              && Turn(m, r) == Taken(m, r, rd.token, rd.size)
  {
    hide Memory.Ok, Taken, ReadToken, Popped;
    Within(m, r);
    if r.cur.byte == r.cur.end {
      EndsWell(m, r);
    } else {
      ReadStep(m, r);
    }
  }

  /** A token that is neither a section name nor `@h` is written. */
  lemma TakenPlain(m: Memory, r: Run, t: Token, size: nat)
    requires m.Ok() && r.Running? && !t.Ref? && !t.Defs?
    ensures Taken(m, r, t, size) == Went(Passed(r, t, size), [Emit(t)])
  {
  }

  lemma OnlyThen(a: Output)
    ensures Then(a, Done()) == a && (!a.ok ==> forall b :: Then(a, b) == a)
  {
  }

  lemma FileEndIs(w: Writer)
    ensures Write(w, FileEnd) == (w, [Put(NEWLINE)]) && forall n :: Write(w, FileStart(n)) == (w, [NewFile(n)])
  {
  }

  lemma HaltedIsDone(m: Memory)
    requires m.Ok()
    ensures Total(m, Halted) == Done()
  {
  }

  lemma RunningInText(m: Memory, r: Run)
    requires m.Ok() && RunOk(m, r) && r.Running?
    ensures InText(m, r.cur)
  {
  }

  /** The kind of a token by its first byte or two bytes. */
  lemma TokenKind(mem: seq<Byte>, i: nat, end: nat, verb: bool, t: Token, size: nat)
    requires i < end <= |mem| && ReadToken(mem[i..end], verb) == Read(t, size)
    ensures i + size <= end && size > 0
    ensures var wide := !(verb && mem[i] != 2 && mem[i] != 3 && mem[i] != 10) && mem[i] >= 128;
      && (wide ==> size >= 2 && i + 1 < end)
      && (wide == (!t.Raw? && mem[i] >= 128))
      && (wide ==>
            var a := (mem[i] as nat - 128) * 256 + mem[i + 1] as nat;
            && (NAMES <= a < NUMBERS <==> t.Ref? || t.Defs?)
            && (t.Defs? <==> a == DEFS) && (t.Ref? ==> t.n == a - NAMES) && (t.Ref? || t.Defs? ==> size == 2))
      && (!wide ==> !t.Ref? && !t.Defs? && size == 1)
      && (!wide && mem[i] == 10 ==> t == Char(NEWLINE))
      && (t == Char(NEWLINE) ==> mem[i] == 10)
  {
  }

  lemma PassedIs(r: Run, t: Token, size: nat)
    requires r.Running?
    ensures var f := r.cur;
      Passed(r, t, size) ==
        Running(Frame(f.end, f.byte + size, f.name, f.repl, if t.Mark? then t.n else f.section), r.saved,
                                    After(t, r.verb))
  {
  }

  lemma PushedIs(m: Memory, r: Run, n: nat, size: nat)
    requires r.Running? && n < |m.table.equiv| && m.table.equiv[n] + 1 < |m.starts|
    ensures Pushed(m, r, n, size) ==
            Running(StartOf(m, m.table.equiv[n], n, 0), r.saved + [r.cur.(byte := r.cur.byte + size)], false)
  {
  }

  lemma EquivInRange(m: Memory, n: nat)
    requires m.Ok() && n < |m.table.equiv|
    ensures m.table.equiv[n] + 1 < |m.starts|
  {
  }

  lemma SimpleWrites(w: Writer, n: nat)
    ensures Write(w, Close(n)) == (w, [End(n)]) && Write(w, Missing(n)) == (w, [Complain(n)])
  {
  }

  lemma PassedReference(r: Run, t: Token, size: nat)
    requires r.Running? && (t.Ref? || t.Defs?)
    ensures Passed(r, t, size) == Running(r.cur.(byte := r.cur.byte + size), r.saved, r.verb)
  {
  }

  /** The first of the tokens `ts` that the bytes stand for, and the bytes of the others. */
  lemma TokenHead(mem: seq<Byte>, i: nat, end: nat, verb: bool, ts: seq<Token>)
    requires i < end <= |mem| && Decode(mem[i..end], verb) == Decoded(ts)
    ensures ts != []
    ensures var rd := ReadToken(mem[i..end], verb);
      && rd.Read? && rd.token == ts[0] && Fits(ts[0], verb)
      && Decode(mem[i + rd.size..end], After(ts[0], verb)) == Decoded(ts[1..])
      && (i + rd.size == end ==> ts == [ts[0]] && !After(ts[0], verb))
      && (i + rd.size < end ==> |ts| > 1)
  {
    var b := mem[i..end];
    var rd := ReadToken(b, verb);
    CodeRead(b, verb);
    assert b[rd.size..] == mem[i + rd.size..end];
  }

  /** Writing `e` after `es`. */
  lemma WroteMore(w: Writer, fs: seq<Effect>, es: seq<Event>, w1: Writer, fs1: seq<Effect>, e: Event, w2: Writer,
                  fs2: seq<Effect>)
    requires (w1, fs1) == (WriteAll(w, es).0, fs + WriteAll(w, es).1)
    requires (w2, fs2) == (Write(w1, e).0, fs1 + Write(w1, e).1)
    ensures (w2, fs2) == (WriteAll(w, es + [e]).0, fs + WriteAll(w, es + [e]).1)
  {
    hide Write;
    WriteOne(w1, e);
    WriteConcat(w, es, [e]);
    assert fs + WriteAll(w, es).1 + Write(w1, e).1 == fs + (WriteAll(w, es).1 + Write(w1, e).1);
  }

  lemma WroteAll(w: Writer, fs: seq<Effect>, es: seq<Event>, w1: Writer, fs1: seq<Effect>, more: seq<Event>, w2: Writer,
                 fs2: seq<Effect>)
    requires (w1, fs1) == (WriteAll(w, es).0, fs + WriteAll(w, es).1)
    requires (w2, fs2) == (WriteAll(w1, more).0, fs1 + WriteAll(w1, more).1)
    ensures (w2, fs2) == (WriteAll(w, es + more).0, fs + WriteAll(w, es + more).1)
  {
    hide Write, WriteAll;
    WriteConcat(w, es, more);
    assert fs + WriteAll(w, es).1 + WriteAll(w1, more).1 == fs + (WriteAll(w, es).1 + WriteAll(w1, more).1);
  }

  function Defined(body: seq<Event>, ok: bool): seq<Event> {
    [MacroStart] + body + if ok then [MacroEnd] else []
  }

  /** What the definition of macro `t` takes away from the definitions that are to come. */
  lemma MacroDone(tb: Table, t: nat, es: seq<Event>, body: seq<Event>, ok: bool)
    requires |tb.link| == |tb.texts| && t < |tb.texts| && tb.link[t] == 0 && MacroBody(tb.texts[t]) == Output(body, ok)
    ensures Then(Output(es, true), Macros(tb, t)) ==
            if ok then Then(Output(es + Defined(body, ok), true), Macros(tb, t + 1))
              else Output(es + Defined(body, ok), false)
  {
    hide MacroBody;
    var rest := Macros(tb, t + 1);
    assert es + ([MacroStart] + (body + ([MacroEnd] + rest.events))) ==
           es + ([MacroStart] + body + [MacroEnd]) + rest.events;
  }

  lemma MacroBodyNext(ts: seq<Token>)
    ensures MacroBody([]) == Done()
    ensures ts != [] ==>
              MacroBody(ts) ==
              if ts == [Char(NEWLINE)] then Done()
              else if ts[0].Ref? || ts[0].Defs? then Fatal()
              else Then(One(Emit(Protected(ts[0], true))), MacroBody(ts[1..]))
  {
  }

  lemma DecodedEnd(mem: seq<Byte>, end: nat, verb: bool, ts: seq<Token>)
    requires end <= |mem| && Decode(mem[end..end], verb) == Decoded(ts)
    ensures ts == [] && !verb && MacroBody(ts) == Done()
  {
  }

  lemma TablesFit(m: Memory)
    requires m.Ok()
    ensures |m.table.link| == |m.table.texts| > 0
  {
  }

  lemma StoredDecodes(m: Memory, t: nat)
    requires m.Ok() && t < |m.table.texts|
    ensures t + 1 < |m.starts| && m.starts[t] <= m.starts[t + 1] <= |m.mem|
    ensures Decode(m.mem[m.starts[t]..m.starts[t + 1]], false) == Decoded(m.table.texts[t])
  {
    assert m.Stored(t);
    DecodeEncode(m.table.texts[t], false);
  }

  function Pair(mem: seq<Byte>, i: nat): nat
    requires i + 1 < |mem|
  {
    mem[i] as nat * 256 + mem[i + 1] as nat
  }

  function FileAt(mem: seq<Byte>, i: nat): nat
    requires i + 4 <= |mem| && mem[i + 2] >= 128
  {
    (mem[i + 2] as nat - 128) * 256 + mem[i + 3] as nat
  }
}
