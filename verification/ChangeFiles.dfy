/** Change files: what applying one to a web file means. */
module ChangeFiles {
  import opened Bytes

  type Line = seq<Byte>

  const AT: Byte := 64

  /** A line without the blanks at its end. */
  function Trim(l: Line): (t: Line)
    ensures t == [] || t[|t| - 1] != BLANK
  {
    if l == [] || l[|l| - 1] != BLANK then l else Trim(l[..|l| - 1])
  }

  /** Nothing but blanks is cut off. */
  lemma {:induction false} TrimCuts(l: Line)
    ensures Trim(l) <= l && forall i :: |Trim(l)| <= i < |l| ==> l[i] == BLANK
  {
    if l != [] && l[|l| - 1] == BLANK {
      TrimCuts(l[..|l| - 1]);
    }
  }

  function TrimAll(ls: seq<Line>): (ts: seq<Line>)
    ensures |ts| == |ls| && forall i :: 0 <= i < |ls| ==> ts[i] == Trim(ls[i])
  {
    if ls == [] then [] else [Trim(ls[0])] + TrimAll(ls[1..])
  }

  /** A line that starts with `@` gets a small letter after it. */
  function Lowered(l: Line): (r: Line)
    ensures |r| == |l|
  {
    if |l| >= 2 && l[0] == AT then l[1 := Lower(l[1])] else l
  }

  function LoweredAll(ls: seq<Line>): (r: seq<Line>)
    ensures |r| == |ls| && forall i :: 0 <= i < |ls| ==> r[i] == Lowered(ls[i])
  {
    if ls == [] then [] else [Lowered(ls[0])] + LoweredAll(ls[1..])
  }

  /** A line that starts with `@` and the letter `c` in either case. */
  predicate Marks(l: Line, c: Byte) {
    |l| >= 2 && l[0] == AT && Lower(l[1]) == c
  }

  const X: Byte := 120
  const Y: Byte := 121
  const Z: Byte := 122
  const I: Byte := 105

  /** A line that starts with `@` and one of the letters `marks` in either case. */
  predicate Stray(l: Line, marks: set<Byte>) {
    |l| >= 2 && l[0] == AT && Lower(l[1]) in marks
  }

  /** One change, as it is written: after some comments, `@x`, perhaps blank lines, the first line to be replaced, the
      others, `@y`, the new lines, and `@z`. */
  datatype Block = Block(comments: seq<Line>, x: Line, blanks: seq<Line>, first: Line, olds: seq<Line>, y: Line,
                         news: seq<Line>, z: Line)
  {
    predicate Ok() {
      && (forall i :: 0 <= i < |comments| ==> !Marks(comments[i], X))
      && Marks(x, X) && (forall i :: 0 <= i < |blanks| ==> blanks[i] == []) && first != []
      && (forall i :: 0 <= i < |olds| ==> !Marks(olds[i], Y))
      && Marks(y, Y) && (forall i :: 0 <= i < |news| ==> !Marks(news[i], Z) && !Marks(news[i], I)) && Marks(z, Z)
    }

    /** What comes after the first line. */
    function Rest(): seq<Line> {
      olds + [y] + news + [z]
    }

    function Lines(): seq<Line> {
      comments + [x] + blanks + [first] + Rest()
    }
  }

  /** A change file; at its end, there may be comments. */
  function FileOf(bs: seq<Block>, tail: seq<Line>): seq<Line> {
    if bs == [] then tail else bs[0].Lines() + FileOf(bs[1..], tail)
  }

  predicate FileOk(bs: seq<Block>, tail: seq<Line>) {
    && (forall i :: 0 <= i < |bs| ==> bs[i].Ok())
    && forall i :: 0 <= i < |tail| ==> !Marks(tail[i], X)
  }

  /** The messages about changes: how many lines were not as expected, that the web file ended in a change, and those
      about marks that are not expected before `@x`, `@y` and `@z`. */
  datatype Message = Failed(n: nat) | EndedInChange | MissingX | MissingY | MissingZ

  datatype Merged = Merged(lines: seq<Line>, messages: seq<Message>, left: nat, complete: bool)

  /** The place of the first line that is equal to `l`, or the number of lines. */
  function FindLine(web: seq<Line>, l: Line): (i: nat)
    ensures i <= |web| && (i < |web| ==> web[i] == l) && forall j :: 0 <= j < i ==> web[j] != l
  {
    if web == [] || web[0] == l then 0 else 1 + FindLine(web[1..], l)
  }

  /** How many lines of the web file are not those that the change expects. */
  function Failures(olds: seq<Line>, web: seq<Line>): nat
    requires |olds| <= |web|
  {
    if olds == [] then 0 else (if Lowered(olds[0]) == web[0] then 0 else 1) + Failures(olds[1..], web[1..])
  }

  function Report(n: nat): seq<Message> {
    if n > 0 then [Failed(n)] else []
  }

  /** One message for every stray mark. */
  function Strays(ls: seq<Line>, marks: set<Byte>, m: Message): seq<Message> {
    if ls == [] then [] else (if Stray(ls[0], marks) then [m] else []) + Strays(ls[1..], marks, m)
  }

  /** The messages while the next change is looked for, whose first line is then known. */
  function Priming(bs: seq<Block>, tail: seq<Line>): seq<Message> {
    Strays(if bs == [] then tail else bs[0].comments, {Y, Z, I}, MissingX)
  }

  /** The messages while the lines to be replaced are read from both files. */
  function Skipping(olds: seq<Line>, web: seq<Line>): seq<Message> {
    if olds == [] then []
    else
      (if Stray(olds[0], {X, Z}) then [MissingY] else [])
      + if web == [] then [EndedInChange] else Skipping(olds[1..], web[1..])
  }

  /** A web file with changes: up to the first line of the next change, the lines of the web file; then the new lines,
      for as many lines as the change replaces; and so on. `left` is the number of changes that were not made.
      `complete` says that no line of the change file is left in the change buffer at the end: the first line of a
      change that was not reached, or the last one that was compared when the web file ended in a change, if it is
      not blank. */
  function Merge(web: seq<Line>, bs: seq<Block>, tail: seq<Line>): Merged {
    if bs == [] then Merged(web, [], 0, true)
    else
      var b := bs[0];
      var i := FindLine(web, b.first);
      var next := i + 1 + |b.olds|;
      if i == |web| then Merged(web, [], |bs|, false)
      else if next > |web| then
        Merged(web[..i], Skipping(b.olds, web[i + 1..]), |bs|, b.olds[|web| - i - 1] == [])
      else
        var m := Merge(web[next..], bs[1..], tail);
        Merged(web[..i] + LoweredAll(b.news) + m.lines,
               Skipping(b.olds, web[i + 1..]) + Report(Failures(b.olds, web[i + 1..next]))
               + (Strays(b.news, {X, Y}, MissingZ) + Priming(bs[1..], tail) + m.messages),
               m.left, m.complete)
  }

  // ---------- what this means ----------

  /** No line fails to match exactly if the lines of the web file are those of the change in small letters after `@`. */
  lemma {:induction false} FailuresIff(olds: seq<Line>, web: seq<Line>)
    requires |olds| == |web|
    ensures Failures(olds, web) == 0 <==> web == LoweredAll(olds)
  {
    if olds == [] {
    } else {
      FailuresIff(olds[1..], web[1..]);
      assert web == [web[0]] + web[1..];
      assert LoweredAll(olds) == [Lowered(olds[0])] + LoweredAll(olds[1..]);
    }
  }

  /** Even if the change file repeats the lines of the web file exactly, there is an error message exactly if one of
      them, after the first, starts with `@` and a capital letter. */
  lemma ExactCopyFails(olds: seq<Line>)
    ensures Failures(olds, olds) == 0 <==>
            forall i :: 0 <= i < |olds| ==> !(|olds[i]| >= 2 && olds[i][0] == AT && 65 <= olds[i][1] <= 90)
  {
    FailuresIff(olds, olds);
    forall i | 0 <= i < |olds|
      ensures Lowered(olds[i]) == olds[i] <==> !(|olds[i]| >= 2 && olds[i][0] == AT && 65 <= olds[i][1] <= 90)
    {
      LoweredSame(olds[i]);
    }
    if forall i :: 0 <= i < |olds| ==> Lowered(olds[i]) == olds[i] {
      assert LoweredAll(olds) == olds;
    } else {
      var i :| 0 <= i < |olds| && Lowered(olds[i]) != olds[i];
      assert LoweredAll(olds)[i] != olds[i];
    }
  }

  /** The line `@A` does not match itself. */
  lemma CapitalFails()
    ensures Failures([[AT, 65]], [[AT, 65]]) == 1
  {
    var l: Line := [AT, 65];
    assert Lowered(l)[1] == 97;
  }

  lemma LoweredSame(l: Line)
    ensures Lowered(l) == l <==> !(|l| >= 2 && l[0] == AT && 65 <= l[1] <= 90)
  {
    if |l| >= 2 && l[0] == AT && 65 <= l[1] <= 90 {
      assert Lowered(l)[1] != l[1];
    }
  }

  /** If every line that a change starts with is in the web file, far enough from its end, every change is made: the
      result has the unchanged parts of the web file, in order, with the new lines in between. */
  lemma {:induction false} AllApplied(web: seq<Line>, bs: seq<Block>, tail: seq<Line>)
    ensures Merge(web, bs, tail).left == 0 <==> Reached(web, bs)
    ensures Reached(web, bs) ==> Merge(web, bs, tail).lines == Spliced(web, bs)
  {
    if bs != [] && FindLine(web, bs[0].first) + 1 + |bs[0].olds| <= |web| {
      AllApplied(web[FindLine(web, bs[0].first) + 1 + |bs[0].olds|..], bs[1..], tail);
    }
  }

  predicate Reached(web: seq<Line>, bs: seq<Block>) {
    bs == [] || (
      var next := FindLine(web, bs[0].first) + 1 + |bs[0].olds|;
      next <= |web| && Reached(web[next..], bs[1..]))
  }

  function Spliced(web: seq<Line>, bs: seq<Block>): seq<Line>
    requires Reached(web, bs)
  {
    if bs == [] then web
    else
      var i := FindLine(web, bs[0].first);
      web[..i] + LoweredAll(bs[0].news) + Spliced(web[i + 1 + |bs[0].olds|..], bs[1..])
  }

  /** There are no messages exactly if the web file does not end in a change, every change that is reached replaces the
      lines that it expects, and no marks are passed that are not expected. */
  lemma {:induction false} QuietIff(web: seq<Line>, bs: seq<Block>, tail: seq<Line>)
    ensures Merge(web, bs, tail).messages == [] <==> ReachedMatch(web, bs) && ReachedClean(web, bs, tail)
  {
    hide Strays, Skipping, LoweredAll, Priming, Failures, FindLine;
    if bs != [] {
      var b, i := bs[0], FindLine(web, bs[0].first);
      var next := i + 1 + |b.olds|;
      if next <= |web| {
        QuietIff(web[next..], bs[1..], tail);
        SkippingIs(b.olds, web[i + 1..]);
        FailuresIff(b.olds, web[i + 1..next]);
      } else if i < |web| {
        SkippingEnds(b.olds, web[i + 1..]);
      }
    }
  }

  lemma {:induction false} SkippingIs(olds: seq<Line>, web: seq<Line>)
    requires |olds| <= |web|
    ensures Skipping(olds, web) == Strays(olds, {X, Z}, MissingY)
  {
    if olds != [] {
      SkippingIs(olds[1..], web[1..]);
    }
  }

  lemma {:induction false} SkippingEnds(olds: seq<Line>, web: seq<Line>)
    requires |olds| > |web|
    ensures EndedInChange in Skipping(olds, web)
  {
    if web != [] {
      SkippingEnds(olds[1..], web[1..]);
    }
  }

  /** Every change that is reached replaces the lines that it names, in small letters after `@`. */
  predicate ReachedMatch(web: seq<Line>, bs: seq<Block>) {
    bs == [] || (
      var i := FindLine(web, bs[0].first);
      var next := i + 1 + |bs[0].olds|;
      i < |web| ==> next <= |web| && web[i + 1..next] == LoweredAll(bs[0].olds) && ReachedMatch(web[next..], bs[1..]))
  }

  /** There are no stray marks in the changes that are reached, and none before the next one. */
  predicate ReachedClean(web: seq<Line>, bs: seq<Block>, tail: seq<Line>) {
    bs == [] || (
      var next := FindLine(web, bs[0].first) + 1 + |bs[0].olds|;
      next <= |web| ==>
        && Strays(bs[0].olds, {X, Z}, MissingY) == [] && Strays(bs[0].news, {X, Y}, MissingZ) == []
        && Priming(bs[1..], tail) == [] && ReachedClean(web[next..], bs[1..], tail))
  }

  /** `check_complete` is satisfied exactly if all changes were made, or the web file ended in one when the last line
      that was compared was blank. */
  lemma {:induction false} CompleteIff(web: seq<Line>, bs: seq<Block>, tail: seq<Line>)
    ensures Merge(web, bs, tail).complete <==> Reached(web, bs) || EndsAtBlank(web, bs)
    ensures EndsAtBlank(web, bs) ==> EndedInChange in Merge(web, bs, tail).messages
  {
    if bs != [] {
      var i := FindLine(web, bs[0].first);
      var next := i + 1 + |bs[0].olds|;
      if next <= |web| {
        CompleteIff(web[next..], bs[1..], tail);
      } else if i < |web| {
        SkippingEnds(bs[0].olds, web[i + 1..]);
      }
    }
  }

  /** The web file ends in a change, in which a blank line is to be replaced next. */
  predicate EndsAtBlank(web: seq<Line>, bs: seq<Block>) {
    bs != [] && (
      var i := FindLine(web, bs[0].first);
      var next := i + 1 + |bs[0].olds|;
      if next <= |web| then EndsAtBlank(web[next..], bs[1..])
      else i < |web| && bs[0].olds[|web| - i - 1] == [])
  }
}
