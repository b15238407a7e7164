/** The vocabulary of the CWEAVE scrap parser: categories, token symbols, packed tokens, mathness,
    scraps, and the token store (`tok_mem` with its index `tok_start`). */
module Scraps {

  datatype Option<+T> = None | Some(value: T)

  /** Category codes of scraps; `Zero` is the padding stored past the last scrap. */
  datatype Cat =
    | Zero | Exp | Unop | Binop | Unorbinop | Cast | Question | Lbrace | Rbrace | DeclHead | Comma | Lpar | Rpar
    | Prelangle | Prerangle | Langle | Colcol | Base | Decl | StructHead | Stmt | Function | FnDecl | ElseLike
    | Semi | Colon | Tag | IfHead | ElseHead | IfClause | Lproc | Rproc | Insert | SectionScrap | Dead | PublicLike
    | OperatorLike | NewLike | CatchLike | ForLike | DoLike | IfLike | RawRpar | RawUnorbin | ConstLike | RawInt
    | IntLike | CaseLike | SizeofLike | StructLike | TypedefLike | DefineLike | BeginArg | EndArg

  /** The symbols that productions put into a translation, and any other character code. */
  datatype Sym =
    | Blank | BraceL | BraceR | Dollar | Backslash | CommaSign | Nine | Five | LessSign | GreaterSign
    | Noop | MathRel | BigCancel | Cancel | Indent | Outdent | Opt | Backup | BreakSpace | Force | BigForce | Inserted
    | Other(code: nat)

  /** The numeric code of a symbol, as `tok_mem` stores it. */
  function Code(s: Sym): nat {
    match s
    case Blank => 0x20
    case BraceL => 0x7B
    case BraceR => 0x7D
    case Dollar => 0x24
    case Backslash => 0x5C
    case CommaSign => 0x2C
    case Nine => 0x39
    case Five => 0x35
    case LessSign => 0x3C
    case GreaterSign => 0x3E
    case Noop => 0x7F
    case MathRel => 0x86
    case BigCancel => 0x88
    case Cancel => 0x89
    case Indent => 0x8A
    case Outdent => 0x8B
    case Opt => 0x8C
    case Backup => 0x8D
    case BreakSpace => 0x8E
    case Force => 0x8F
    case BigForce => 0x90
    case Inserted => 0x94
    case Other(c) => c
  }

  /** A token of `tok_mem`: a symbol, or a flag with an index into `name_dir` (`Id`, `Res`, `Sec`) or `tok_start`
      (`Text`, `Inner`). */
  datatype Tok = Chr(sym: Sym) | Id(name: nat) | Res(name: nat) | Sec(name: nat) | Text(text: nat) | Inner(text: nat)

  datatype Mathness = MaybeMath | YesMath | NoMath

  /** A scrap; `left` and `right` are the two halves of the packed field `mathness`. */
  datatype Scrap = Scrap(cat: Cat, left: Mathness, right: Mathness, trans: nat)

  /** The token memory: text `t` is `toks[starts[t]..starts[t + 1]]`, and the text under construction
      is everything from the last start on. `ilk` holds the categories given to identifiers. */
  datatype Store = Store(toks: seq<Tok>, starts: seq<nat>, ilk: map<nat, Cat>) {

    /** The number of frozen texts, which is the number the current text will get. */
    function Texts(): int {
      |starts| - 1
    }

    predicate Shaped() {
      && |starts| > 0
      && (forall i :: 0 <= i < |starts| ==> starts[i] <= |toks|)
      && (forall i, j :: 0 <= i < j < |starts| ==> starts[i] <= starts[j])
    }

    /** Every text reference points to an earlier text. */
    predicate WellFounded()
      requires Shaped()
    {
      forall t, j :: 0 <= t < Texts() && starts[t] <= j < starts[t + 1] && (toks[j].Text? || toks[j].Inner?) ==>
                       toks[j].text < t
    }

    predicate Ok() {
      && Shaped()
      && WellFounded()
    }

    function TextToks(t: nat): seq<Tok>
      requires Shaped() && t < Texts()
    {
      toks[starts[t]..starts[t + 1]]
    }

    /** The tokens of the text under construction. */
    function Pending(): seq<Tok>
      requires Shaped()
    {
      toks[starts[|starts| - 1]..]
    }

    function Append(ts: seq<Tok>): Store {
      this.(toks := toks + ts)
    }

    function Freeze(): Store {
      this.(starts := starts + [|toks|])
    }
  }
}
