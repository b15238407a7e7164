/** The packed replacement texts of CTANGLE: how a list of tokens is stored in bytes, and how it is read back. */
module TangleTokens {
  import opened Bytes

  const STRING: Byte := 2
  const CONSTANT: Byte := 3
  const NEWLINE: Byte := 10
  const JOIN: Byte := 127

  /** What the two-byte codes start from: section names, section numbers, and the flag for `@h`. */
  const NAMES: nat := 10240
  const NUMBERS: nat := 20480
  const DEFS: nat := 20479

  datatype Token =
    | Char(c: Byte)
    | Delim(d: Byte)
    | Raw(c: Byte)
    | Ident(n: nat)
    | Ref(n: nat)
    | Defs
    | Mark(n: nat)
    | Line(line: nat, file: nat)

  predicate IsDelim(c: Byte) {
    c == STRING || c == CONSTANT
  }

  /** Whether a token can be stored; `verb` tells whether it is inside a string or constant. */
  predicate Fits(t: Token, verb: bool) {
    match t
    case Char(c) => if verb then c == NEWLINE else c < 128 && !IsDelim(c)
    case Delim(d) => IsDelim(d)
    case Raw(c) => verb && !IsDelim(c) && c != NEWLINE
    case Ident(n) => !verb && n < NAMES
    case Ref(n) => !verb && n < NAMES - 1
    case Defs => !verb
    case Mark(n) => !verb && 0 < n < 12288
    case Line(line, file) => !verb && line < 0x1_0000 && file < NAMES
  }

  function After(t: Token, verb: bool): bool {
    if t.Delim? then !verb else verb
  }

  /** A text: every token fits where it stands, and strings and constants are closed. */
  predicate WellFormed(ts: seq<Token>, verb: bool) {
    if ts == [] then !verb else Fits(ts[0], verb) && WellFormed(ts[1..], After(ts[0], verb))
  }

  // ---------- writing ----------

  /** `store_two_bytes`. */
  function TwoBytes(x: nat): (b: seq<Byte>)
    requires x < 0x1_0000
    ensures |b| == 2
  {
    [(x / 256) as Byte, (x % 256) as Byte]
  }

  /** The bytes of a token. */
  function Code(t: Token, verb: bool): (b: seq<Byte>)
    requires Fits(t, verb)
    ensures b != []
  {
    match t
    case Char(c) => [c]
    case Delim(d) => [d]
    case Raw(c) => [c]
    case Ident(n) => TwoBytes(n + 0x8000)
    case Ref(n) => TwoBytes(n + 0xA800)
    case Defs => TwoBytes(DEFS + 0x8000)
    case Mark(n) => TwoBytes(n + 0xD000)
    case Line(line, file) => TwoBytes(0xD000) + TwoBytes(line) + TwoBytes(file + 0x8000)
  }

  function Encode(ts: seq<Token>, verb: bool): seq<Byte>
    requires WellFormed(ts, verb)
  {
    if ts == [] then [] else Code(ts[0], verb) + Encode(ts[1..], After(ts[0], verb))
  }

  // ---------- reading ----------

  datatype Reading = Bad | Read(token: Token, size: nat)

  /** The token at the start of some bytes, as the output routines read it. */
  function ReadToken(b: seq<Byte>, verb: bool): (r: Reading)
    requires b != []
    ensures r.Read? ==> 0 < r.size <= |b|
  {
    var c := b[0];
    if verb && !IsDelim(c) && c != NEWLINE then Read(Raw(c), 1)
    else if c < 128 then Read(if IsDelim(c) then Delim(c) else Char(c), 1)
    else if |b| < 2 then Bad
    else
      var a := (c as nat - 128) * 256 + b[1] as nat;
      if a < NAMES then Read(Ident(a), 2)
      else if a == DEFS then Read(Defs, 2)
      else if a < NUMBERS then Read(Ref(a - NAMES), 2)
      else if a > NUMBERS then Read(Mark(a - NUMBERS), 2)
      else if |b| < 6 || b[4] < 128 || b[4] >= 168 then Bad
      else Read(Line(b[2] as nat * 256 + b[3] as nat, (b[4] as nat - 128) * 256 + b[5] as nat), 6)
  }

  datatype Decoding = Garbled | Decoded(tokens: seq<Token>)

  function Decode(b: seq<Byte>, verb: bool): Decoding
    decreases |b|
  {
    if b == [] then if verb then Garbled else Decoded([])
    else
      var r := ReadToken(b, verb);
      if r.Bad? then Garbled
      else
        var d := Decode(b[r.size..], After(r.token, verb));
        if d.Garbled? then Garbled else Decoded([r.token] + d.tokens)
  }

  // ---------- the round trip ----------

  /** Reading finds the token that was written, whatever follows. */
  lemma ReadCode(t: Token, verb: bool, rest: seq<Byte>)
    requires Fits(t, verb)
    ensures ReadToken(Code(t, verb) + rest, verb) == Read(t, |Code(t, verb)|)
  {
    var b := Code(t, verb) + rest;
    assert forall i :: 0 <= i < |Code(t, verb)| ==> b[i] == Code(t, verb)[i];
  }

  /** What was stored is read back. */
  lemma {:induction false} DecodeEncode(ts: seq<Token>, verb: bool)
    requires WellFormed(ts, verb)
    ensures Decode(Encode(ts, verb), verb) == Decoded(ts)
  {
    if ts == [] {
    } else {
      var t := ts[0];
      var rest := Encode(ts[1..], After(t, verb));
      ReadCode(t, verb, rest);
      assert (Code(t, verb) + rest)[|Code(t, verb)|..] == rest;
      DecodeEncode(ts[1..], After(t, verb));
    }
  }

  lemma TwoBytesOf(hi: Byte, lo: Byte)
    ensures TwoBytes(hi as nat * 256 + lo as nat) == [hi, lo]
  {
  }

  lemma CodeRead(b: seq<Byte>, verb: bool)
    requires b != []
    ensures var r := ReadToken(b, verb); r.Read? ==> Fits(r.token, verb) && b == Code(r.token, verb) + b[r.size..]
  {
    var r := ReadToken(b, verb);
    if r.Read? {
      assert b == b[..r.size] + b[r.size..];
      assert Code(r.token, verb) == b[..r.size] by {
        if r.size >= 2 {
          TwoBytesOf(b[0], b[1]);
        }
        if r.size == 6 {
          TwoBytesOf(b[2], b[3]);
          TwoBytesOf(b[4], b[5]);
        }
        hide TwoBytes;
      }
    }
  }

  /** What can be read is what would be stored for the tokens that are read. */
  lemma {:induction false} EncodeDecode(b: seq<Byte>, verb: bool)
    requires Decode(b, verb).Decoded?
    ensures WellFormed(Decode(b, verb).tokens, verb) && Encode(Decode(b, verb).tokens, verb) == b
    decreases |b|
  {
    if b != [] {
      var r := ReadToken(b, verb);
      CodeRead(b, verb);
      EncodeDecode(b[r.size..], After(r.token, verb));
      var ts := Decode(b, verb).tokens;
      assert ts[0] == r.token && ts[1..] == Decode(b[r.size..], After(r.token, verb)).tokens;
    }
  }

  /** No two token lists are stored in the same bytes. */
  lemma EncodeInjective(ts: seq<Token>, us: seq<Token>, verb: bool)
    requires WellFormed(ts, verb) && WellFormed(us, verb) && Encode(ts, verb) == Encode(us, verb)
    ensures ts == us
  {
    DecodeEncode(ts, verb);
    DecodeEncode(us, verb);
  }

  /** Without knowing whether it is inside a string, the reader could be wrong: the same bytes mean different things. */
  lemma VerbatimMatters(n: nat)
    requires n < NAMES
    ensures WellFormed([Ident(n)], false)
    ensures Decode(Encode([Ident(n)], false), true) != Decode(Encode([Ident(n)], false), false)
  {
    DecodeEncode([Ident(n)], false);
    var b := Encode([Ident(n)], false);
    var one: seq<Token> := [Ident(n)];
    assert one[1..] == [];
    assert ReadToken(b, true) == Read(Raw(b[0]), 1);
  }

  lemma {:induction false} WellFormedConcat(ts: seq<Token>, us: seq<Token>, verb: bool)
    requires WellFormed(ts, verb) && WellFormed(us, false)
    ensures WellFormed(ts + us, verb) && Encode(ts + us, verb) == Encode(ts, verb) + Encode(us, false)
  {
    if ts == [] {
      assert ts + us == us;
    } else {
      assert (ts + us)[0] == ts[0] && (ts + us)[1..] == ts[1..] + us;
      WellFormedConcat(ts[1..], us, After(ts[0], verb));
      assert Code(ts[0], verb) + (Encode(ts[1..], After(ts[0], verb)) + Encode(us, false))
          == Code(ts[0], verb) + Encode(ts[1..], After(ts[0], verb)) + Encode(us, false);
    }
  }
}
