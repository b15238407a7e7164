/** Reading a web file with a change file: one line at a time, from one file or the other. */
module LineReaders {
  import opened Bytes
  import opened ChangeFiles

  lemma {:induction false} TrimFrom(ls: seq<Line>, i: nat)
    requires i < |ls|
    ensures TrimAll(ls[i..]) == [Trim(ls[i])] + TrimAll(ls[i + 1..])
  {
    assert ls[i..][1..] == ls[i + 1..];
  }

  /** `input_ln`: the line up to the last character that is not blank. */
  method InputLine(raw: Line) returns (l: Line)
    ensures l == Trim(raw)
  {
    var k, limit := 0, 0;
    TrimIs(raw[..0], 0);
    while k < |raw|
      invariant limit <= k <= |raw| && Trim(raw[..k]) == raw[..limit]
    {
      k := k + 1;
      assert raw[..k][..k - 1] == raw[..k - 1];
      if raw[k - 1] != BLANK {
        limit := k;
      }
    }
    assert raw[..k] == raw;
    l := raw[..limit];
  }

  lemma TrimIs(l: Line, n: nat)
    requires n == 0 && l == []
    ensures Trim(l) == l[..n]
  {
  }

  lemma TrimNone(ls: seq<Line>)
    ensures TrimAll(ls[|ls|..]) == []
  {
  }

  /** A line that no change starts with is not touched. */
  lemma MergeStep(web: seq<Line>, bs: seq<Block>, tail: seq<Line>)
    requires web != [] && (bs != [] ==> web[0] != bs[0].first)
    ensures var m := Merge(web[1..], bs, tail);
      Merge(web, bs, tail) == Merged([web[0]] + m.lines, m.messages, m.left, m.complete)
  {
    hide LoweredAll, Failures, Report, FindLine, Skipping, Strays, Priming;
    if bs == [] {
      assert web == [web[0]] + web[1..];
    } else {
      FindNext(web, bs[0].first);
      var i := FindLine(web[1..], bs[0].first);
      var next := i + 1 + |bs[0].olds|;
      assert web[..i + 1] == [web[0]] + web[1..][..i];
      if i == |web| - 1 {
        assert web == [web[0]] + web[1..];
      } else if next >= |web| {
        assert web[i + 2..] == web[1..][i + 1..];
      } else {
        MergeTails(web, i, next);
        ConsAssoc(web[0], web[1..][..i], LoweredAll(bs[0].news), Merge(web[next + 1..], bs[1..], tail).lines);
      }
    }
  }

  lemma FindNext(web: seq<Line>, l: Line)
    requires web != [] && web[0] != l
    ensures FindLine(web, l) == 1 + FindLine(web[1..], l)
  {
  }

  lemma MergeTails(web: seq<Line>, i: nat, next: nat)
    requires web != [] && i < next < |web|
    ensures web[next + 1..] == web[1..][next..] && web[i + 2..next + 1] == web[1..][i + 1..next]
    ensures web[i + 2..] == web[1..][i + 1..]
  {
    assert web[1..][next..] == web[next + 1..];
    assert web[1..][i + 1..next] == web[i + 2..next + 1];
  }

  lemma ConsAssoc(w: Line, u: seq<Line>, a: seq<Line>, b: seq<Line>)
    ensures [w] + u + a + b == [w] + (u + a + b)
  {
    assert [w] + u + a == [w] + (u + a);
    assert ([w] + (u + a)) + b == [w] + ((u + a) + b);
  }

  /** The failures of a change whose lines are compared with the lines of `web`. */
  function FailuresTo(olds: seq<Line>, web: seq<Line>): nat {
    if |olds| <= |web| then Failures(olds, web[..|olds|]) else 0
  }

  /** What is still to come from a change that has been reached. */
  function Changed(web: seq<Line>, bs: seq<Block>, tail: seq<Line>): Merged
    requires bs != []
  {
    var olds := bs[0].olds;
    if |olds| > |web| then Merged([], Skipping(olds, web), |bs|, olds[|web|] == [])
    else
      var m := Replacing(bs[0].news, web[|olds|..], bs[1..], tail);
      m.(messages := Skipping(olds, web) + Report(FailuresTo(olds, web)) + m.messages)
  }

  /** What is still to come when the new lines `news` of a change are read. */
  function Replacing(news: seq<Line>, web: seq<Line>, bs: seq<Block>, tail: seq<Line>): Merged {
    var m := Merge(web, bs, tail);
    Merged(LoweredAll(news) + m.lines, Strays(news, {X, Y}, MissingZ) + Priming(bs, tail)
           + m.messages, m.left, m.complete)
  }

  /** A line that a change starts with. */
  lemma MergeChange(web: seq<Line>, bs: seq<Block>, tail: seq<Line>)
    requires web != [] && bs != [] && web[0] == bs[0].first
    ensures Merge(web, bs, tail) == Changed(web[1..], bs, tail)
  {
    hide LoweredAll, Failures, Report, FindLine, Skipping, Strays, Priming;
    FindHere(web, bs[0].first);
    var n := |bs[0].olds|;
    if n <= |web[1..]| {
      DropOne(web, n);
      NoneBefore(web, LoweredAll(bs[0].news));
    } else {
      assert web[..0] == [];
    }
  }

  lemma NoneBefore(web: seq<Line>, l: seq<Line>)
    ensures web[..0] + l == l
  {
  }

  lemma FindHere(web: seq<Line>, l: Line)
    requires web != [] && web[0] == l
    ensures FindLine(web, l) == 0
  {
  }

  lemma DropOne(web: seq<Line>, n: nat)
    requires n < |web|
    ensures web[1..][n..] == web[n + 1..] && web[1..][..n] == web[1..n + 1]
  {
  }

  class LineReader {
    const webFile: seq<Line>
    const changeFile: seq<Line>
    var webPos: nat
    var changePos: nat
    var buffer: Line
    /** The next line that a change starts with; empty if there is none. */
    var changeBuffer: Line
    var changing: bool
    var inputHasEnded: bool
    var messages: seq<Message>

    /** The changes that are not yet made, and the new lines that are left of the change that is being made. */
    ghost var blocks: seq<Block>
    ghost var tail: seq<Line>
    ghost var news: seq<Line>
    ghost var z: Line

    ghost function Web(): seq<Line>
      requires webPos <= |webFile|
      reads this
    {
      TrimAll(webFile[webPos..])
    }

    ghost function Changes(): seq<Line>
      requires changePos <= |changeFile|
      reads this
    {
      TrimAll(changeFile[changePos..])
    }

    /** No line of the web file includes another file. */
    ghost predicate NoIncludes() {
      forall i :: 0 <= i < |webFile| ==> !Marks(Trim(webFile[i]), I)
    }

    ghost predicate Positions()
      reads this
    {
      webPos <= |webFile| && changePos <= |changeFile| && NoIncludes() && FileOk(blocks, tail)
    }

    /** The first line of the next change, if any, is in the change buffer. */
    ghost predicate Primed()
      reads this
    {
      && Positions()
      && if blocks == [] then changeBuffer == [] && Changes() == []
         else changeBuffer == blocks[0].first && Changes() == blocks[0].Rest() + FileOf(blocks[1..], tail)
    }

    /** In a change: its new lines come next. */
    ghost predicate InChange()
      reads this
    {
      && Positions() && Changes() == news + [z] + FileOf(blocks, tail)
      && Marks(z, Z) && forall i :: 0 <= i < |news| ==> !Marks(news[i], Z) && !Marks(news[i], I)
    }

    ghost predicate Valid()
      reads this
    {
      && Positions()
      && if inputHasEnded then !changing else if changing then InChange() else Primed()
    }

    /** The lines that are still to come. */
    ghost function Pending(): Merged
      requires Valid()
      reads this
    {
      if inputHasEnded then Merged([], [], |blocks|, changeBuffer == [])
      else if changing then Replacing(news, Web(), blocks, tail)
      else Merge(Web(), blocks, tail)
    }

    /** `reset_input`. */
    constructor (webFile: seq<Line>, changeFile: seq<Line>, ghost bs: seq<Block>, ghost tail: seq<Line>)
      requires forall i :: 0 <= i < |webFile| ==> !Marks(Trim(webFile[i]), I)
      requires FileOk(bs, tail) && TrimAll(changeFile) == FileOf(bs, tail)
      ensures Valid() && !inputHasEnded && Pending() == Merge(TrimAll(webFile), bs, tail)
              && messages == Priming(bs, tail)
    {
      this.webFile, this.changeFile := webFile, changeFile;
      webPos, changePos, buffer, changeBuffer := 0, 0, [], [];
      inputHasEnded, messages := false, [];
      changing := false;
      blocks, this.tail, news, z := bs, tail, [], [];
      new;
      assert changeFile[0..] == changeFile && webFile[0..] == webFile;
      PrimeChangeBuffer();
    }

    /** The next line of the change file, if there is one. */
    method ReadChange() returns (ok: bool)
      requires changePos <= |changeFile|
      modifies this`changePos, this`buffer
      ensures ok == (old(Changes()) != []) && changePos <= |changeFile|
      ensures ok ==> old(Changes()) == [buffer] + Changes() && changePos == old(changePos) + 1
      ensures !ok ==> changePos == old(changePos)
    {
      if changePos == |changeFile| {
        TrimNone(changeFile);
        return false;
      }
      TrimFrom(changeFile, changePos);
      buffer := InputLine(changeFile[changePos]);
      changePos := changePos + 1;
      return true;
    }

    /** The next line of the web file, if there is one. */
    method ReadWeb() returns (ok: bool)
      requires webPos <= |webFile|
      modifies this`webPos, this`buffer
      ensures ok == (old(Web()) != []) && webPos <= |webFile|
      ensures ok ==> old(Web()) == [buffer] + Web() && webPos == old(webPos) + 1
      ensures !ok ==> webPos == old(webPos)
      ensures ok ==> NoIncludes() ==> !Marks(buffer, I)
    {
      if webPos == |webFile| {
        TrimNone(webFile);
        return false;
      }
      TrimFrom(webFile, webPos);
      buffer := InputLine(webFile[webPos]);
      webPos := webPos + 1;
      return true;
    }

    /** Comments are skipped up to a line that starts with `@x`. */
    method SkipComments(ghost cs: seq<Line>, ghost more: seq<Line>) returns (found: bool)
      requires changePos <= |changeFile| && Changes() == cs + more && (more != [] ==> Marks(more[0], X))
      requires forall i :: 0 <= i < |cs| ==> !Marks(cs[i], X)
      modifies this`changePos, this`buffer, this`messages
      ensures old(changePos) <= changePos <= |changeFile|
      ensures found == (more != []) && Changes() == if found then more[1..] else []
      ensures messages == old(messages) + Strays(cs, {Y, Z, I}, MissingX)
    {
      hide TrimAll, Trim, Strays, Stray, Lowered, Marks;
      ghost var rest := cs;
      NoStrays({Y, Z, I}, MissingX);
      while true
        invariant old(changePos) <= changePos <= |changeFile| && Changes() == rest + more
        invariant forall i :: 0 <= i < |rest| ==> !Marks(rest[i], X)
        invariant messages + Strays(rest, {Y, Z, I}, MissingX) == old(messages) + Strays(cs, {Y, Z, I}, MissingX)
        decreases |changeFile| - changePos
      {
        ghost var before := Changes();
        found := ReadChange();
        if !found {
          assert rest == [] && more == [] && messages + [] == messages;
          return;
        }
        HeadOf(before, buffer, Changes(), rest, more);
        LoweredMarks(buffer, if |buffer| > 1 && buffer[0] == AT then buffer[1 := Lower(buffer[1])]
                     else buffer, {Y, Z, I});
        if |buffer| >= 2 && buffer[0] == AT {
          buffer := buffer[1 := Lower(buffer[1])];
          if buffer[1] == X {
            assert rest == [] && messages + [] == messages;
            return;
          }
          if buffer[1] == Y || buffer[1] == Z || buffer[1] == I {
            messages := messages + [MissingX];
          }
        }
        StraysNext(rest, {Y, Z, I}, MissingX);
        rest := rest[1..];
      }
    }

    /** Blank lines are skipped. */
    method SkipBlanks(ghost bl: seq<Line>, ghost rest: seq<Line>)
      requires changePos <= |changeFile| && Changes() == bl + rest && rest != [] && rest[0] != []
      requires forall i :: 0 <= i < |bl| ==> bl[i] == []
      modifies this`changePos, this`buffer
      ensures old(changePos) <= changePos <= |changeFile| && buffer == rest[0] && Changes() == rest[1..]
    {
      ghost var left := bl;
      while true
        invariant old(changePos) <= changePos <= |changeFile| && Changes() == left + rest
        invariant forall i :: 0 <= i < |left| ==> left[i] == []
        decreases |changeFile| - changePos
      {
        ghost var before := Changes();
        var ok := ReadChange();
        HeadOf(before, buffer, Changes(), left, rest);
        if buffer != [] {
          return;
        }
        left := left[1..];
      }
    }

    /** `prime_the_change_buffer`. */
    method PrimeChangeBuffer()
      requires Positions() && Changes() == FileOf(blocks, tail)
      modifies this`changePos, this`buffer, this`changeBuffer, this`messages
      ensures Primed() && changePos >= old(changePos) && messages == old(messages) + Priming(blocks, tail)
    {
      hide Marks, TrimAll, Trim, Strays, FileOf, FileOk, NoIncludes, Block.Rest, Block.Lines, Block.Ok;
      NoBlocks(tail);
      changeBuffer := [];
      ghost var comments, blanks, rest := tail, [], [];
      if blocks != [] {
        BlockIs(blocks, tail);
        comments, blanks := blocks[0].comments, blocks[0].blanks;
        rest := [blocks[0].first] + (blocks[0].Rest() + FileOf(blocks[1..], tail));
      }
      assert tail + [] == tail;
      var found := SkipComments(comments, if blocks == [] then [] else [blocks[0].x] + (blanks + rest));
      if !found {
        return;
      }
      assert ([blocks[0].x] + (blanks + rest))[1..] == blanks + rest;
      SkipBlanks(blanks, rest);
      changeBuffer := buffer;
    }

    /** One round of the loop of `check_change`: a line to be replaced, read from both files; or `@y`, which sets
        `changing`. */
    method SkipOld(ghost olds: seq<Line>, ghost after: seq<Line>) returns (differs: bool)
      requires webPos <= |webFile| && changePos <= |changeFile| && Changes() == olds + after && !inputHasEnded
      requires (forall i :: 0 <= i < |olds| ==> !Marks(olds[i], Y)) && after != [] && Marks(after[0], Y)
      modifies this`webPos, this`changePos, this`buffer, this`changeBuffer, this`changing, this`inputHasEnded
      modifies this`messages
      ensures old(webPos) <= webPos <= |webFile| && old(changePos) < changePos <= |changeFile|
      ensures changing == (olds == []) && inputHasEnded == (olds != [] && old(Web()) == [])
      ensures changing ==> Changes() == after[1..] && Web() == old(Web()) && messages == old(messages)
      ensures inputHasEnded ==> messages == old(messages) + Skipping(olds, old(Web())) && |changeBuffer| == |olds[0]|
      ensures !changing && !inputHasEnded ==>
                && Changes() == olds[1..] + after && Web() == old(Web())[1..]
                && messages == old(messages) + (if Stray(olds[0], {X, Z}) then [MissingY] else [])
                && differs == (Lowered(olds[0]) != old(Web())[0])
    {
      hide Marks, TrimAll, Trim, Lowered, Stray;
      differs, changing := false, true;
      ghost var before, web := Changes(), Web();
      var ok := ReadChange();
      HeadOf(before, buffer, Changes(), olds, after);
      if |buffer| > 1 && buffer[0] == AT {
        buffer := buffer[1 := Lower(buffer[1])];
      }
      LoweredMarks(before[0], buffer, {X, Z});
      if |buffer| > 1 && buffer[0] == AT && (buffer[1] == X || buffer[1] == Z) {
        messages := messages + [MissingY];
      } else if |buffer| > 1 && buffer[0] == AT && buffer[1] == Y {
        return;
      }
      changeBuffer := buffer;
      changing := false;
      ok := ReadWeb();
      if !ok {
        messages := messages + [EndedInChange];
        inputHasEnded := true;
        return;
      }
      HeadOf(web, buffer, Web(), [], web);
      differs := buffer != changeBuffer;
    }

    /** The loop of `check_change`: the lines to be replaced are read from both files, up to `@y`; `n` of them
        differ. */
    method SkipOlds(ghost olds: seq<Line>, ghost after: seq<Line>) returns (n: nat)
      requires webPos <= |webFile| && changePos <= |changeFile| && Changes() == olds + after && !inputHasEnded
      requires (forall i :: 0 <= i < |olds| ==> !Marks(olds[i], Y)) && after != [] && Marks(after[0], Y)
      modifies this`webPos, this`changePos, this`buffer, this`changeBuffer, this`changing, this`inputHasEnded
      modifies this`messages
      ensures old(webPos) <= webPos <= |webFile| && old(changePos) < changePos <= |changeFile|
      ensures inputHasEnded == (|olds| > |old(Web())|) && changing == !inputHasEnded
      ensures inputHasEnded ==> |changeBuffer| == |olds[|old(Web())|]|
      ensures messages == old(messages) + Skipping(olds, old(Web()))
      ensures changing ==>
                && Changes() == after[1..] && Web() == old(Web())[|olds|..]
                && n == FailuresTo(olds, old(Web()))
    {
      hide Marks, TrimAll, Trim, Lowered, FailuresTo, Stray, Skipping;
      n := 0;
      ghost var web, k := Web(), 0;
      assert olds[0..] == olds && web[0..] == web;
      while true
        invariant old(webPos) <= webPos <= |webFile| && old(changePos) <= changePos <= |changeFile| && !inputHasEnded
        invariant k <= |olds| && k <= |web| && Changes() == olds[k..] + after && Web() == web[k..]
        invariant messages + Skipping(olds[k..], web[k..]) == old(messages) + Skipping(olds, web)
        invariant |olds| <= |web| ==> n + FailuresTo(olds[k..], web[k..]) == FailuresTo(olds, web)
        decreases |olds| - k
      {
        ghost var before := messages;
        var differs := SkipOld(olds[k..], after);
        if changing || inputHasEnded {
          NothingSkipped(web[k..]);
          return;
        }
        if differs {
          n := n + 1;
        }
        SkipNext(before, olds, web, k);
        k := k + 1;
      }
    }

    /** `check_change`: if the line in the buffer is the one that the next change starts with, the lines to be
        replaced are skipped. */
    method CheckChange(ghost web: seq<Line>)
      requires Primed() && !changing && !inputHasEnded && changeBuffer != [] && web == [buffer] + Web()
      modifies this`webPos, this`changePos, this`buffer, this`changeBuffer, this`changing, this`inputHasEnded
      modifies this`messages
      modifies this`blocks, this`news, this`z
      ensures webPos >= old(webPos) && changePos >= old(changePos)
      ensures old(buffer) != old(changeBuffer) ==>
                && Valid() && !changing && !inputHasEnded && messages == old(messages) && buffer == old(buffer)
                && webPos == old(webPos) && blocks == old(blocks)
      ensures old(buffer) == old(changeBuffer) ==>
                && Valid() && (changing || inputHasEnded)
                && Pending().lines == Merge(web, old(blocks), tail).lines
                && Pending().left == Merge(web, old(blocks), tail).left
                && Pending().complete == Merge(web, old(blocks), tail).complete
                && messages + Pending().messages == old(messages) + Merge(web, old(blocks), tail).messages
    {
      hide Marks, TrimAll, Trim, Merge, Lowered, FileOk, NoIncludes, FailuresTo, LoweredAll, Strays, Skipping, Priming;
      if |changeBuffer| != |buffer| || buffer != changeBuffer {
        return;
      }
      ghost var b, more, web1 := blocks[0], FileOf(blocks[1..], tail), Web();
      assert web[0] == buffer && web[1..] == web1;
      MergeChange(web, blocks, tail);
      FirstOk(blocks, tail);
      ghost var after := [b.y] + (b.news + [b.z] + more);
      assert Changes() == b.olds + after;
      var n := SkipOlds(b.olds, after);
      if inputHasEnded {
        return;
      }
      if n > 0 {
        messages := messages + [Failed(n)];
      }
      news, z, blocks := b.news, b.z, blocks[1..];
      assert after[1..] == news + [z] + more;
    }

    /** The part of `get_line` that reads the change file: a new line, or the end of the change. */
    method NextNew()
      requires Valid() && changing
      modifies this`changePos, this`buffer, this`changeBuffer, this`changing, this`news, this`messages
      ensures Valid() && !inputHasEnded && changePos > old(changePos)
      ensures old(Pending()).lines == (if changing then [buffer] else []) + Pending().lines
      ensures old(messages) + old(Pending()).messages == messages + Pending().messages
              && Pending().left == old(Pending()).left && Pending().complete == old(Pending()).complete
    {
      hide Marks, TrimAll, Trim, Merge, Lowered, FileOk, NoIncludes, Stray, Priming, Replacing;
      ghost var before, rest := Changes(), FileOf(blocks, tail);
      ReplacingNext(news, Web(), blocks, tail);
      assert before == news + ([z] + rest);
      var ok := ReadChange();
      HeadOf(before, buffer, Changes(), news, [z] + rest);
      if buffer != [] && |buffer| > 1 && buffer[0] == AT {
        buffer := buffer[1 := Lower(buffer[1])];
      }
      LoweredMarks(before[0], buffer, {X, Y});
      if buffer != [] && |buffer| > 1 && buffer[0] == AT && (buffer[1] == X || buffer[1] == Y) {
        messages := messages + [MissingZ];
      }
      if buffer != [] && |buffer| > 1 && buffer[0] == AT && buffer[1] == Z {
        PrimeChangeBuffer();
        changing := false;
      } else {
        news := news[1..];
        assert Changes() == news + [z] + rest;
      }
    }

    /** The part of `get_line` that reads the web file. */
    method NextWeb()
      requires Valid() && !changing && !inputHasEnded
      modifies this`webPos, this`changePos, this`buffer, this`changeBuffer, this`changing, this`inputHasEnded
      modifies this`messages
      modifies this`blocks, this`news, this`z
      ensures Valid() && webPos >= old(webPos) && changePos >= old(changePos)
      ensures !inputHasEnded ==> webPos > old(webPos)
      ensures Pending().left == old(Pending()).left && Pending().complete == old(Pending()).complete
      ensures old(Pending()).lines == (if changing || inputHasEnded then [] else [buffer]) + Pending().lines
      ensures old(messages) + old(Pending()).messages == messages + Pending().messages
    {
      hide Marks, TrimAll, Trim, Merge, Lowered, FileOk, NoIncludes, Replacing;
      ghost var web := Web();
      var ok := ReadWeb();
      FirstOk(blocks, tail);
      if !ok {
        inputHasEnded := true;
        MergeNothing(blocks, tail);
        return;
      }
      assert web[0] == buffer && web[1..] == Web();
      if blocks == [] || web[0] != blocks[0].first {
        MergeStep(web, blocks, tail);
      }
      if |buffer| == |changeBuffer| && |changeBuffer| > 0 && buffer[0] == changeBuffer[0] {
        CheckChange(web);
      }
    }

    /** `get_line`: the next line of the web file with its changes, if there is one. */
    method GetLine() returns (more: bool)
      requires Valid() && !inputHasEnded
      modifies this`webPos, this`changePos, this`buffer, this`changeBuffer, this`changing, this`inputHasEnded
      modifies this`messages
      modifies this`blocks, this`news, this`z
      ensures Valid() && more == !inputHasEnded
      ensures old(Pending()).lines == if more then [buffer] + Pending().lines else []
      ensures old(messages) + old(Pending()).messages == messages + Pending().messages
              && Pending().left == old(Pending()).left && Pending().complete == old(Pending()).complete
      ensures more ==> Unread() < old(Unread())
    {
      hide Marks, TrimAll, Trim, Merge, Lowered, FileOk, NoIncludes, InChange, Primed, Positions;
      ghost var p, was, u := Pending(), messages, Unread();
      while true
        invariant Valid() && !inputHasEnded && Unread() <= u
        invariant p.lines == Pending().lines && p.left == Pending().left
        invariant p.complete == Pending().complete
        invariant was + p.messages == messages + Pending().messages
        decreases Unread()
      {
        if changing {
          NextNew();
          if changing {
            return true;
          }
        }
        NextWeb();
        if !changing {
          return !inputHasEnded;
        }
      }
    }

    ghost function Unread(): nat
      requires Valid()
      reads this
    {
      |webFile| - webPos + |changeFile| - changePos
    }

    /** All lines, as the programs read them. */
    method ReadAll() returns (lines: seq<Line>)
      requires Valid() && !inputHasEnded
      modifies this
      ensures Valid() && inputHasEnded && lines == old(Pending()).lines
      ensures messages == old(messages) + old(Pending()).messages && |blocks| == old(Pending()).left
      ensures Pending().complete == old(Pending()).complete
    {
      hide Merge, Primed, InChange, Positions;
      ghost var p, was := Pending(), messages;
      lines := [];
      while true
        invariant Valid() && !inputHasEnded && p.lines == lines + Pending().lines && p.left == Pending().left
        invariant p.complete == Pending().complete
        invariant was + p.messages == messages + Pending().messages
        decreases Unread()
      {
        var more := GetLine();
        if !more {
          return;
        }
        lines := lines + [buffer];
      }
    }

    /** `check_complete`: whether there is no error message about a change that did not match. */
    method CheckComplete() returns (complete: bool)
      requires Valid() && inputHasEnded
      ensures complete == Pending().complete
    {
      complete := changeBuffer == [];
    }
  }

  /** Reading a web file with a well-formed change file gives what the changes say. */
  method ReadWebFile(webFile: seq<Line>, changeFile: seq<Line>, ghost bs: seq<Block>, ghost tail: seq<Line>)
    returns (lines: seq<Line>, messages: seq<Message>, complete: bool)
    requires forall i :: 0 <= i < |webFile| ==> !Marks(Trim(webFile[i]), I)
    requires FileOk(bs, tail) && TrimAll(changeFile) == FileOf(bs, tail)
    ensures lines == Merge(TrimAll(webFile), bs, tail).lines
    ensures messages == Priming(bs, tail) + Merge(TrimAll(webFile), bs, tail).messages
    ensures complete <==> Reached(TrimAll(webFile), bs) || EndsAtBlank(TrimAll(webFile), bs)
  {
    var r := new LineReader(webFile, changeFile, bs, tail);
    lines := r.ReadAll();
    messages := r.messages;
    complete := r.CheckComplete();
    CompleteIff(TrimAll(webFile), bs, tail);
  }

  lemma FirstOk(bs: seq<Block>, tail: seq<Line>)
    requires FileOk(bs, tail)
    ensures bs != [] ==> bs[0].Ok() && FileOk(bs[1..], tail)
  {
  }

  lemma NothingSkipped(web: seq<Line>)
    ensures FailuresTo([], web) == 0 && Skipping([], web) == []
  {
  }

  /** A line that is to be replaced. */
  lemma SkipNext(messages: seq<Message>, olds: seq<Line>, web: seq<Line>, k: nat)
    requires k < |olds| && k < |web|
    ensures olds[k..][1..] == olds[k + 1..] && web[k..][1..] == web[k + 1..]
    ensures messages + Skipping(olds[k..], web[k..])
         == (messages + if Stray(olds[k], {X, Z}) then [MissingY] else []) + Skipping(olds[k + 1..], web[k + 1..])
    ensures |olds| <= |web| ==>
              FailuresTo(olds[k..], web[k..])
              == (if Lowered(olds[k]) != web[k] then 1 else 0) + FailuresTo(olds[k + 1..], web[k + 1..])
  {
    hide Lowered, Stray;
    var more := Skipping(olds[k + 1..], web[k + 1..]);
    assert olds[k..][1..] == olds[k + 1..] && web[k..][1..] == web[k + 1..];
    assert messages + ([MissingY] + more) == messages + [MissingY] + more
           && messages + ([] + more) == messages + [] + more;
    if |olds| <= |web| {
      var n := |olds| - k;
      assert web[k..][..n][1..] == web[k + 1..][..n - 1];
    }
  }

  lemma LoweredMarks(l: Line, r: Line, marks: set<Byte>)
    requires r == if |l| > 1 && l[0] == AT then l[1 := Lower(l[1])] else l
    ensures r == Lowered(l) && forall c :: Marks(l, c) <==> |r| > 1 && r[0] == AT && r[1] == c
    ensures Stray(l, marks) <==> |r| > 1 && r[0] == AT && r[1] in marks
  {
  }

  lemma NoStrays(marks: set<Byte>, m: Message)
    ensures Strays([], marks, m) == []
  {
  }

  lemma StraysNext(ls: seq<Line>, marks: set<Byte>, m: Message)
    requires ls != []
    ensures Strays(ls, marks, m) == (if Stray(ls[0], marks) then [m] else []) + Strays(ls[1..], marks, m)
  {
  }

  /** A new line of a change, and the end of its new lines. */
  lemma ReplacingNext(news: seq<Line>, web: seq<Line>, bs: seq<Block>, tail: seq<Line>)
    ensures var m := Replacing(news, web, bs, tail);
      if news == [] then m == Merge(web, bs, tail).(messages := Priming(bs, tail) + Merge(web, bs, tail).messages)
      else
        var more := Replacing(news[1..], web, bs, tail);
        m == Merged([Lowered(news[0])] + more.lines, (if Stray(news[0], {X, Y}) then [MissingZ] else [])
                    + more.messages, more.left, more.complete)
  {
    hide Lowered, Stray, Priming, Merge;
    var m := Merge(web, bs, tail);
    if news == [] {
      assert [] + m.lines == m.lines;
      assert [] + Priming(bs, tail) == Priming(bs, tail);
    } else {
      StraysNext(news, {X, Y}, MissingZ);
      assert [Lowered(news[0])] + LoweredAll(news[1..]) + m.lines ==
             [Lowered(news[0])] + (LoweredAll(news[1..]) + m.lines);
    }
  }

  lemma MergeNothing(bs: seq<Block>, tail: seq<Line>)
    ensures Merge([], bs, tail) == Merged([], [], |bs|, bs == [])
  {
  }

  lemma HeadOf(before: seq<Line>, l: Line, now: seq<Line>, a: seq<Line>, b: seq<Line>)
    requires before == [l] + now && before == a + b
    ensures if a == [] then b != [] && l == b[0] && now == b[1..] else l == a[0] && now == a[1..] + b
  {
    assert l == before[0] && now == before[1..];
    assert a != [] ==> before[1..] == a[1..] + b;
  }

  lemma NoBlocks(tail: seq<Line>)
    ensures FileOf([], tail) == tail && (FileOk([], tail) ==> forall i :: 0 <= i < |tail| ==> !Marks(tail[i], X))
  {
  }

  lemma BlockIs(bs: seq<Block>, tail: seq<Line>)
    requires bs != [] && FileOk(bs, tail)
    ensures FileOf(bs, tail)
         == bs[0].comments + ([bs[0].x] + (bs[0].blanks + ([bs[0].first] + (bs[0].Rest() + FileOf(bs[1..], tail)))))
    ensures bs[0].Ok() && FileOk(bs[1..], tail)
    ensures (forall i :: 0 <= i < |bs[0].comments| ==> !Marks(bs[0].comments[i], X)) && Marks(bs[0].x, X)
    ensures (forall i :: 0 <= i < |bs[0].blanks| ==> bs[0].blanks[i] == []) && bs[0].first != []
  {
    hide Marks;
    var b := bs[0];
    assert b.Lines() + FileOf(bs[1..], tail)
        == b.comments + ([b.x] + (b.blanks + ([b.first] + (b.Rest() + FileOf(bs[1..], tail)))));
  }
}
