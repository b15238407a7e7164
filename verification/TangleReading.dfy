/** The reading side of CTANGLE's signs: how `get_next` compresses characters, and what it makes of the output. */
module TangleReading {
  import opened Bytes
  import opened TangleTokens
  import opened TangleExpansion
  import opened TangleWriter
  import TangleSpacing

  const AMPERSAND: Byte := 38
  const PLUS: Byte := 43
  const MINUS: Byte := 45
  const DOT: Byte := 46
  const COLON: Byte := 58
  const LESS: Byte := 60
  const GREATER: Byte := 62
  const BANG: Byte := 33
  const BAR: Byte := 124

  /** A sign, with the number of characters it takes; or the beginning of a comment. */
  datatype Scanned = Sign(code: Byte, size: nat) | Comment

  /** A line is followed by a blank. */
  function At(cs: seq<Byte>, i: nat): Byte {
    if i < |cs| then cs[i] else BLANK
  }

  /** What `get_next` reads at a punctuation character. */
  function Scan(cs: seq<Byte>): (r: Scanned)
    requires cs != []
    ensures r.Sign? ==> 0 < r.size <= |cs|
  {
    var c, d := cs[0], At(cs, 1);
    if c == SLASH && (d == STAR || d == SLASH) then Comment
    else if c == PLUS && d == PLUS then Sign(11, 2)
    else if c == MINUS && d == MINUS then Sign(1, 2)
    else if c == MINUS && d == GREATER then if At(cs, 2) == STAR then Sign(23, 3) else Sign(25, 2)
    else if c == DOT && d == STAR then Sign(22, 2)
    else if c == DOT && d == DOT && At(cs, 2) == DOT then Sign(14, 3)
    else if c == COLON && d == COLON then Sign(6, 2)
    else if c == EQUALS && d == EQUALS then Sign(30, 2)
    else if c == GREATER && d == EQUALS then Sign(29, 2)
    else if c == GREATER && d == GREATER then Sign(17, 2)
    else if c == LESS && d == EQUALS then Sign(28, 2)
    else if c == LESS && d == LESS then Sign(16, 2)
    else if c == AMPERSAND && d == AMPERSAND then Sign(4, 2)
    else if c == BAR && d == BAR then Sign(31, 2)
    else if c == BANG && d == EQUALS then Sign(26, 2)
    else Sign(c, 1)
  }

  /** The characters that stand for themselves, from ! to ~, but for those that begin a constant, string, name, or
      control code, or a line for the preprocessor. A period does so only before a digit. */
  predicate Punctuation(c: Byte) {
    c == 33 || c == 37 || c == 38 || 40 <= c <= 47 || 58 <= c <= 63 || c == 91 || c == 93 || c == 94 || 123 <= c <= 126
  }

  /** A code that stands for several characters. */
  ghost predicate Compressed(c: Byte) {
    exists cs: seq<Byte> :: |cs| > 1 && Scan(cs) == Sign(c, |cs|)
  }

  ghost predicate IsSign(c: Byte) {
    Punctuation(c) || Compressed(c)
  }

  function Puts(cs: seq<Byte>): (fs: seq<Effect>)
    ensures |fs| == |cs| && forall i :: 0 <= i < |fs| ==> fs[i] == Put(cs[i])
  {
    seq(|cs|, i requires 0 <= i < |cs| => Put(cs[i]))
  }

  /** A compressed code is written with the characters that are read as it, and nothing else is written so. */
  lemma SpellingIsRead(c: Byte, cs: seq<Byte>, w: Writer)
    requires |cs| > 1
    ensures Scan(cs) == Sign(c, |cs|) <==> Operator(c) == Puts(cs)
    ensures Scan(cs) == Sign(c, |cs|) ==> Write(w, Emit(Char(c))) == (w.(state := Normal), Puts(cs))
  {
  }

  // ---------- reading the output ----------

  datatype Lexeme = Word(n: nat) | Symbol(code: Byte) | Remark

  /** The characters at the beginning of some output. */
  function Chars(fs: seq<Effect>): (cs: seq<Byte>)
    ensures |cs| <= |fs|
  {
    if fs == [] || !fs[0].Put? then [] else [fs[0].c] + Chars(fs[1..])
  }

  /** The names and signs that are read in some output, up to a remark; blanks are skipped. */
  function ReadBack(fs: seq<Effect>): seq<Lexeme>
    decreases |fs|
  {
    if fs == [] then []
    else if fs[0].Name? then [Word(fs[0].n)] + ReadBack(fs[1..])
    else if fs[0].Put? && fs[0].c != BLANK && fs[0].c != NEWLINE then
      match Scan(Chars(fs))
      case Comment => [Remark]
      case Sign(c, size) => [Symbol(c)] + ReadBack(fs[size..])
    else ReadBack(fs[1..])
  }

  // ---------- names and signs ----------

  ghost predicate Plain(e: Event) {
    TangleSpacing.IsIdent(e) || (e.Emit? && e.token.Char? && IsSign(e.token.c))
  }

  ghost predicate AllPlain(es: seq<Event>) {
    forall i :: 0 <= i < |es| ==> Plain(es[i])
  }

  function LexemeOf(e: Event): Lexeme
    requires e.Emit? && (e.token.Ident? || e.token.Char?)
  {
    if e.token.Ident? then Word(e.token.n) else Symbol(e.token.c)
  }

  ghost function Lexemes(es: seq<Event>): (ls: seq<Lexeme>)
    requires AllPlain(es)
    ensures |ls| == |es| && forall i :: 0 <= i < |ls| ==> ls[i] == LexemeOf(es[i])
  {
    seq(|es|, i requires 0 <= i < |es| => LexemeOf(es[i]))
  }

  /** The first character of a sign. */
  function First(c: Byte): Byte {
    match c
    case 11 => PLUS
    case 1 | 25 | 23 => MINUS
    case 22 | 14 => DOT
    case 6 => COLON
    case 30 => EQUALS
    case 17 | 29 => GREATER
    case 16 | 28 => LESS
    case 4 => AMPERSAND
    case 31 => BAR
    case 26 => BANG
    case _ => c
  }

  /** The events begin with a sign that begins with this character. */
  predicate Starts(es: seq<Event>, c: Byte) {
    es != [] && es[0].Emit? && es[0].token.Char? && First(es[0].token.c) == c
  }

  predicate StartsWith(es: seq<Event>, c: Byte) {
    es != [] && es[0] == Emit(Char(c))
  }

  /** The sign `c` before these events is read as another sign, or as the beginning of a comment. An equals sign never
      is, and a slash before an asterisk is not, for the writer puts a blank between them. */
  predicate Fuses(c: Byte, es: seq<Event>) {
    || (c == SLASH && Starts(es, SLASH))
    || (c == PLUS && Starts(es, PLUS))
    || (c == MINUS && (Starts(es, MINUS) || Starts(es, GREATER)))
    || (c == 25 && Starts(es, STAR))
    || (c == DOT && (Starts(es, STAR) || StartsWith(es, 14) || (StartsWith(es, DOT) && Starts(es[1..], DOT))))
    || (c == COLON && Starts(es, COLON))
    || (c == GREATER && (Starts(es, EQUALS) || Starts(es, GREATER)))
    || (c == LESS && (Starts(es, EQUALS) || Starts(es, LESS)))
    || (c == AMPERSAND && Starts(es, AMPERSAND))
    || (c == BAR && Starts(es, BAR))
    || (c == BANG && Starts(es, EQUALS))
  }

  predicate FusesAt(es: seq<Event>, i: nat)
    requires i < |es|
  {
    es[i].Emit? && es[i].token.Char? && Fuses(es[i].token.c, es[i + 1..])
  }

  /** The same, told from the two characters that follow. */
  predicate Misread(c: Byte, d: Byte, e: Byte) {
    || (c == SLASH && (d == SLASH || d == STAR))
    || (c == PLUS && d == PLUS)
    || (c == MINUS && (d == MINUS || d == GREATER))
    || (c == 25 && d == STAR)
    || (c == DOT && (d == STAR || (d == DOT && e == DOT)))
    || (c == COLON && d == COLON)
    || (c == GREATER && (d == EQUALS || d == GREATER))
    || (c == LESS && (d == EQUALS || d == LESS))
    || (c == AMPERSAND && d == AMPERSAND)
    || (c == BAR && d == BAR)
    || (c == BANG && d == EQUALS)
  }

  // ---------- one sign ----------

  lemma {:induction false} AllChars(fs: seq<Effect>)
    requires forall i :: 0 <= i < |fs| ==> fs[i].Put?
    ensures fs == Puts(Chars(fs))
  {
    if fs != [] {
      AllChars(fs[1..]);
    }
  }

  lemma CompressedIs(c: Byte)
    ensures Compressed(c) <==> Operator(c) != []
    ensures Operator(c) != [] ==>
            Scan(Chars(Operator(c))) == Sign(c, |Operator(c)|) && Operator(c) == Puts(Chars(Operator(c)))
    ensures Operator(c) != [] ==> |Operator(c)| > 1 && Chars(Operator(c))[0] == First(c) && c != SLASH && c != EQUALS
  {
    hide Scan, Chars, First;
    if Operator(c) != [] {
      AllChars(Operator(c));
      OperatorFirst(c);
      SpellingIsRead(c, Chars(Operator(c)), Writer(Normal, false));
    } else if Compressed(c) {
      var ds: seq<Byte> :| |ds| > 1 && Scan(ds) == Sign(c, |ds|);
      SpellingIsRead(c, ds, Writer(Normal, false));
      assert false;
    }
  }

  lemma OperatorFirst(c: Byte)
    requires Operator(c) != []
    ensures Operator(c)[0] == Put(First(c)) && |Operator(c)| > 1 && c != SLASH && c != EQUALS
  {
  }

  /** The characters that a sign is written with; a blank follows an equals sign. */
  function Spelling(c: Byte): (cs: seq<Byte>)
    ensures cs != []
  {
    if Operator(c) != [] then Chars(Operator(c)) else if c == EQUALS then [c, BLANK] else [c]
  }

  lemma WriteSign(w: Writer, c: Byte)
    requires IsSign(c)
    ensures Spelling(c)[0] == First(c)
    ensures Write(w, Emit(Char(c)))
            == (w.(state := if c == SLASH then PostSlash else Normal),
                (if c == STAR && w.state.PostSlash? then [Put(BLANK)] else []) + Puts(Spelling(c)))
  {
    hide Compressed, Chars, Operator, Write, First, Punctuation;
    CompressedIs(c);
    if Operator(c) != [] {
      WriteOperator(w, c);
      assert [] + Puts(Spelling(c)) == Puts(Spelling(c));
    } else {
      WritePunctuation(w, c);
    }
  }

  lemma WriteOperator(w: Writer, c: Byte)
    requires Operator(c) != []
    ensures Write(w, Emit(Char(c))) == (w.(state := Normal), Operator(c)) && c != NEWLINE && c != STAR && c != SLASH
  {
  }

  lemma WritePunctuation(w: Writer, c: Byte)
    requires Punctuation(c) && Operator(c) == []
    ensures First(c) == c
    ensures Write(w, Emit(Char(c)))
            == (w.(state := if c == SLASH then PostSlash else Normal),
                (if c == STAR && w.state.PostSlash? then [Put(BLANK)] else [])
                + Puts(if c == EQUALS then [c, BLANK] else [c]))
  {
    hide Operator;
    assert Puts([c]) == [Put(c)] && Puts([c, BLANK]) == [Put(c), Put(BLANK)];
    assert c != NEWLINE && c != JOIN && c != CONSTANT && c != STRING;
    var body := Puts(if c == EQUALS then [c, BLANK] else [c]);
    assert [] + body == body;
    assert Write(w, Emit(Char(c))) == WriteChar(w, c);
  }

  /** What follows a sign decides whether it is read as written. */
  lemma ScanSign(c: Byte, rest: seq<Byte>)
    requires IsSign(c)
    ensures var size := if c == EQUALS then 1 else |Spelling(c)|;
      if Misread(c, At(rest, 0), At(rest, 1)) then
        Scan(Spelling(c) + rest).Comment? || Scan(Spelling(c) + rest).code != c
      else Scan(Spelling(c) + rest) == Sign(c, size)
  {
    hide Compressed, Chars;
    CompressedIs(c);
    if Operator(c) != [] {
      ScanCompressed(c, Spelling(c), rest);
    }
  }

  lemma ScanCompressed(c: Byte, cs: seq<Byte>, rest: seq<Byte>)
    requires |cs| > 1 && Scan(cs) == Sign(c, |cs|) && cs[0] == First(c)
    ensures if Misread(c, At(rest, 0), At(rest, 1)) then Scan(cs + rest) == Sign(23, 3)
            else Scan(cs + rest) == Sign(c, |cs|)
  {
    assert forall i :: 0 <= i < |cs| ==> (cs + rest)[i] == cs[i];
  }

  lemma {:induction false} CharsOfPuts(cs: seq<Byte>, fs: seq<Effect>)
    ensures Chars(Puts(cs) + fs) == cs + Chars(fs)
  {
    if cs == [] {
      assert Puts(cs) + fs == fs;
    } else {
      assert (Puts(cs) + fs)[1..] == Puts(cs[1..]) + fs;
      CharsOfPuts(cs[1..], fs);
    }
  }

  lemma SkipBlank(fs: seq<Effect>)
    ensures ReadBack([Put(BLANK)] + fs) == ReadBack(fs)
  {
    assert ([Put(BLANK)] + fs)[1..] == fs;
  }

  /** Reading at a sign. */
  lemma ReadSign(w: Writer, c: Byte, more: seq<Effect>)
    requires IsSign(c)
    ensures var r := ReadBack(Write(w, Emit(Char(c))).1 + more);
      if Misread(c, At(Chars(more), 0), At(Chars(more), 1)) then r != [] && r[0] != Symbol(c)
      else r == [Symbol(c)] + ReadBack(more)
  {
    hide *;
    var body, own := Puts(Spelling(c)), Write(w, Emit(Char(c))).1;
    WriteSign(w, c);
    ReadSpelling(c, more);
    if c == STAR && w.state.PostSlash? {
      assert own + more == [Put(BLANK)] + (body + more);
      SkipBlank(body + more);
    } else {
      assert own + more == body + more;
    }
  }

  lemma ReadSpelling(c: Byte, more: seq<Effect>)
    requires IsSign(c)
    ensures var r := ReadBack(Puts(Spelling(c)) + more);
      if Misread(c, At(Chars(more), 0), At(Chars(more), 1)) then r != [] && r[0] != Symbol(c)
      else r == [Symbol(c)] + ReadBack(more)
  {
    hide *;
    var body := Puts(Spelling(c));
    CharsOfPuts(Spelling(c), more);
    ScanSign(c, Chars(more));
    NotBlank(c);
    ReadAtSign(c, body + more);
    if c == EQUALS {
      assert (body + more)[1..] == [Put(BLANK)] + more;
      SkipBlank(more);
    } else {
      assert (body + more)[|body|..] == more;
    }
  }

  lemma NotBlank(c: Byte)
    requires IsSign(c)
    ensures Spelling(c)[0] != BLANK && Spelling(c)[0] != NEWLINE && !Misread(EQUALS, BLANK, BLANK)
    ensures c == EQUALS ==> Spelling(c) == [EQUALS, BLANK] && forall d, e :: !Misread(c, d, e)
  {
    CompressedIs(c);
  }

  lemma ReadAtSign(c: Byte, fs: seq<Effect>)
    requires fs != [] && fs[0].Put? && fs[0].c != BLANK && fs[0].c != NEWLINE
    ensures Chars(fs) != []
    ensures Scan(Chars(fs)).Comment? ==> ReadBack(fs) == [Remark]
    ensures Scan(Chars(fs)).Sign? ==>
              ReadBack(fs) == [Symbol(Scan(Chars(fs)).code)] + ReadBack(fs[Scan(Chars(fs)).size..])
  {
  }

  // ---------- what follows a sign ----------

  lemma WriteHead(w: Writer, es: seq<Event>)
    requires es != []
    ensures WriteAll(w, es).1 == Write(w, es[0]).1 + WriteAll(Write(w, es[0]).0, es[1..]).1
  {
  }

  /** The first character of what is written after a sign. */
  lemma FirstChar(w: Writer, es: seq<Event>)
    requires AllPlain(es) && !w.state.NumOrId?
    ensures At(Chars(WriteAll(w, es).1), 0)
            == if es == [] || !es[0].token.Char? || (StartsWith(es, STAR) && w.state.PostSlash?) then BLANK
               else First(es[0].token.c)
  {
    hide Write, WriteAll, IsSign;
    if es == [] {
      WriteNothing(w);
    } else {
      WriteHead(w, es);
      var more := WriteAll(Write(w, es[0]).0, es[1..]).1;
      assert Plain(es[0]);
      if es[0].token.Char? {
        FirstOfSign(w, es[0].token.c, more);
      } else {
        TangleSpacing.OwnEffects(w, es[0]);
      }
    }
  }

  lemma FirstOfSign(w: Writer, c: Byte, more: seq<Effect>)
    requires IsSign(c)
    ensures At(Chars(Write(w, Emit(Char(c))).1 + more), 0) == if c == STAR && w.state.PostSlash? then BLANK
            else First(c)
  {
    hide Write, IsSign, Chars, Puts, Spelling, First;
    WriteSign(w, c);
    var body := Puts(Spelling(c));
    CharsOfPuts(Spelling(c), more);
    if c == STAR && w.state.PostSlash? {
      BlankFirst(body + more);
      assert [Put(BLANK)] + body + more == [Put(BLANK)] + (body + more);
    } else {
      assert [] + body + more == body + more;
    }
  }

  lemma BlankFirst(fs: seq<Effect>)
    ensures At(Chars([Put(BLANK)] + fs), 0) == BLANK
  {
  }

  lemma WriteNothing(w: Writer)
    ensures WriteAll(w, []) == (w, [])
  {
  }

  /** The character after a period. */
  lemma SecondChar(w: Writer, es: seq<Event>)
    requires AllPlain(es) && !w.state.NumOrId? && Starts(es, DOT)
    ensures var d := At(Chars(WriteAll(w, es).1), 1);
      && (d == DOT <==> StartsWith(es, 14) || (StartsWith(es, DOT) && Starts(es[1..], DOT)))
  {
    hide Write, WriteAll, IsSign;
    WriteHead(w, es);
    var c, w1 := es[0].token.c, Write(w, es[0]).0;
    var more := WriteAll(w1, es[1..]).1;
    assert Plain(es[0]);
    WriteSign(w, c);
    CharsOfPuts(Spelling(c), more);
    assert [] + Puts(Spelling(c)) == Puts(Spelling(c));
    DotSigns(c);
    if c == DOT {
      assert AllPlain(es[1..]) by { assert forall i :: 0 <= i < |es[1..]| ==> es[1..][i] == es[i + 1]; }
      FirstChar(w1, es[1..]);
      assert At([DOT] + Chars(more), 1) == At(Chars(more), 0);
    }
  }

  lemma DotSigns(c: Byte)
    requires IsSign(c) && First(c) == DOT
    ensures c == DOT || c == 14 || c == 22
    ensures Spelling(c) == if c == DOT then [DOT] else if c == 14 then [DOT, DOT, DOT] else [DOT, STAR]
  {
    hide Compressed, Chars;
    CompressedIs(c);
    if c == 14 {
      assert Operator(c) == Puts([DOT, DOT, DOT]);
      CharsOfPuts([DOT, DOT, DOT], []);
    } else if c == 22 {
      assert Operator(c) == Puts([DOT, STAR]);
      CharsOfPuts([DOT, STAR], []);
    }
  }

  /** A sign is misread exactly if it fuses with what follows. */
  lemma FusesIs(w: Writer, c: Byte, es: seq<Event>)
    requires AllPlain(es) && IsSign(c)
    ensures var w1 := Write(w, Emit(Char(c))).0; var cs := Chars(WriteAll(w1, es).1);
      Misread(c, At(cs, 0), At(cs, 1)) <==> Fuses(c, es)
  {
    hide Write, WriteAll, IsSign;
    WriteSign(w, c);
    var w1 := Write(w, Emit(Char(c))).0;
    FirstChar(w1, es);
    if Starts(es, DOT) {
      SecondChar(w1, es);
    }
    if es != [] {
      assert Plain(es[0]);
      if es[0].token.Char? {
        StarSigns(es[0].token.c);
      }
    }
  }

  lemma StarSigns(c: Byte)
    requires IsSign(c)
    ensures First(c) == STAR ==> c == STAR
    ensures First(c) != BLANK
  {
    CompressedIs(c);
  }

  // ---------- whole stretches ----------

  /** Whatever the state of the writer, a stretch of names and signs is read back as it was read exactly if no sign in
      it fuses with what follows. */
  lemma {:induction false} ReadsBackIff(w: Writer, es: seq<Event>)
    requires AllPlain(es)
    ensures ReadBack(WriteAll(w, es).1) == Lexemes(es) <==> forall i :: 0 <= i < |es| ==> !FusesAt(es, i)
    decreases |es|
  {
    hide Write, WriteAll, ReadBack, Lexemes, Fuses, Misread, IsSign;
    if es == [] {
      ReadNothing(w);
    } else {
      var w1, rest := Write(w, es[0]).0, es[1..];
      assert AllPlain(rest) by { assert forall i :: 0 <= i < |rest| ==> rest[i] == es[i + 1]; }
      ReadsBackIff(w1, rest);
      WriteHead(w, es);
      LexemesHead(es);
      var more := WriteAll(w1, rest).1;
      assert Plain(es[0]);
      if es[0].token.Char? {
        FusesIs(w, es[0].token.c, rest);
        ReadSign(w, es[0].token.c, more);
      } else {
        ReadName(w, es[0], more);
      }
      FusesHead(es);
    }
  }

  lemma FusesHead(es: seq<Event>)
    requires es != []
    ensures (forall i :: 0 <= i < |es| ==> !FusesAt(es, i)) <==>
            !FusesAt(es, 0) && forall i :: 0 <= i < |es[1..]| ==> !FusesAt(es[1..], i)
  {
    hide Fuses;
    var rest := es[1..];
    forall i | 0 <= i < |rest|
      ensures FusesAt(rest, i) == FusesAt(es, i + 1)
    {
      assert rest[i + 1..] == es[i + 2..];
    }
    assert forall i :: 0 < i < |es| ==> FusesAt(es, i) == FusesAt(rest, i - 1);
  }

  lemma ReadNothing(w: Writer)
    ensures ReadBack(WriteAll(w, []).1) == [] == Lexemes([])
  {
  }

  lemma LexemesHead(es: seq<Event>)
    requires AllPlain(es) && es != []
    ensures AllPlain(es[1..]) && Plain(es[0]) && Lexemes(es) == [LexemeOf(es[0])] + Lexemes(es[1..])
  {
    assert forall i :: 0 <= i < |es[1..]| ==> es[1..][i] == es[i + 1];
  }

  lemma ReadName(w: Writer, e: Event, more: seq<Effect>)
    requires TangleSpacing.IsIdent(e)
    ensures ReadBack(Write(w, e).1 + more) == [Word(e.token.n)] + ReadBack(more)
  {
    TangleSpacing.OwnEffects(w, e);
    var named := [Name(e.token.n)] + more;
    assert named[1..] == more;
    if w.state.NumOrId? {
      SkipBlank(named);
      assert Write(w, e).1 + more == [Put(BLANK)] + named;
    } else {
      assert Write(w, e).1 + more == named;
    }
  }

  /** Blanks of the input are not kept: a sum with an increment comes out as an increment with a sum. */
  lemma SumOfIncrement(w: Writer)
    ensures var es := [Emit(Char(PLUS)), Emit(Char(11))];
      ReadBack(WriteAll(w, es).1) == [Symbol(11), Symbol(PLUS)]
  {
    var es := [Emit(Char(PLUS)), Emit(Char(11))];
    WriteHead(w, es);
    WriteOne(Write(w, es[0]).0, es[1]);
    assert es[1..] == [es[1]];
    var out := WriteAll(w, es).1;
    assert out == [Put(PLUS), Put(PLUS), Put(PLUS)];
    assert Chars(out[2..]) == [PLUS];
    assert Chars(out[1..]) == [PLUS, PLUS];
    assert Chars(out) == [PLUS, PLUS, PLUS];
    assert ReadBack(out[2..]) == [Symbol(PLUS)];
  }
}
