/** The productions of the CWEAVE grammar as a table: what the parser does when it looks at four categories. */
module Productions {
  import opened Scraps

  /** The symbols that have a name here. */
  type Glyph = s: Sym | !s.Other? witness Blank

  /** How a production builds the new translation: `Kid(i)` is `big_app1(pp+i)`, `Big(s)` is `big_app(s)`, and
      `Put(s)` is `app(s)` or one character of `app_str`. */
  datatype Recipe =
    | End
    | Kid(i: nat, rest: Recipe)
    | Big(sym: Glyph, rest: Recipe)
    | Put(sym: Glyph, rest: Recipe)

  /** `Relabel` is `squash` with `k==1`; `Reduce` is every other production. All positions are relative to `pp`.
      `reserve` is the argument of the `make_reserved` call that some productions start with, and `start` the value
      the mathness registers have before the recipe begins. */
  datatype Action =
    | NoMatch
    | Relabel(at: nat, cat: Cat, d: int, n: nat)
    | Reduce(at: nat, k: nat, cat: Cat, d: int, n: nat, reserve: Option<nat>, start: Mathness, recipe: Recipe)

  /** What a production may depend on: four categories from `pp` on, and the flag `force_lines`. */
  datatype View = View(c0: Cat, c1: Cat, c2: Cat, c3: Cat, forceLines: bool) {
    function At(i: nat): Cat {
      if i == 0 then c0 else if i == 1 then c1 else if i == 2 then c2 else if i == 3 then c3 else Zero
    }
  }

  // ---------- what is to be checked of every production ----------

  /** The scraps a recipe appends, in order. */
  function KidsOf(r: Recipe): seq<nat> {
    match r
    case End => []
    case Kid(i, rest) => [i] + KidsOf(rest)
    case Big(_, rest) => KidsOf(rest)
    case Put(_, rest) => KidsOf(rest)
  }

  function UpTo(lo: nat, n: nat): seq<nat>
    decreases n
  {
    if n == 0 then [] else [lo] + UpTo(lo + 1, n - 1)
  }

  /** With `depth` indents open before it, the symbols of a recipe never close more than are open, and leave `after`. */
  predicate Indents(r: Recipe, depth: nat, after: nat) {
    match r
    case End => depth == after
    case Kid(_, rest) => Indents(rest, depth, after)
    case Big(s, rest) =>
      if s.Indent? then Indents(rest, depth + 1, after)
      else if s.Outdent? then depth > 0 && Indents(rest, depth - 1, after)
      else Indents(rest, depth, after)
    case Put(s, rest) =>
      if s.Indent? then Indents(rest, depth + 1, after)
      else if s.Outdent? then depth > 0 && Indents(rest, depth - 1, after)
      else Indents(rest, depth, after)
  }

  /** The symbols `big_app` puts into horizontal mode. */
  predicate NonMath(s: Sym) {
    match s
    case Blank | BigCancel | Cancel | Indent | Outdent | Opt | Backup | BreakSpace | Force | BigForce => true
    case Other(c) => c == Code(Blank) || Code(BigCancel) <= c <= Code(BigForce)
    case _ => false
  }

  /** `NonMath` is the test on token codes that `big_app` makes. */
  lemma NonMathIsCodeTest(s: Sym)
    ensures NonMath(s) <==> Code(s) == Code(Blank) || Code(BigCancel) <= Code(s) <= Code(BigForce)
  {
    match s case _ =>
  }

  /** The mode `big_app` puts a symbol into. */
  function ModeOf(s: Sym): Mathness {
    if NonMath(s) then NoMath else YesMath
  }

  /** The mode a symbol must be met in when the text is typeset; `MaybeMath` where either will do. */
  function Needs(s: Sym): Mathness {
    match s
    case BigCancel | Cancel | Indent | Backup | BreakSpace | Force | BigForce => NoMath
    case MathRel | BraceL | BraceR | LessSign | GreaterSign => YesMath
    case _ => MaybeMath
  }

  /** The symbol may be typeset in the given mode, where `MaybeMath` says that the mode is not known. */
  predicate Suits(s: Sym, known: Mathness) {
    match Needs(s)
    case MaybeMath => true
    case YesMath => known.YesMath?
    case NoMath => known.NoMath?
  }

  predicate Special(s: Sym) {
    s.Dollar? || s.LessSign? || s.GreaterSign?
  }

  /** Every symbol appended without a mode check works in either mode, or the mode it needs is known to be on (from
      `start`, or because an indent has just been appended with a check). No recipe appends a dollar sign, and none
      but those that start in math mode a less or greater sign. */
  predicate PutsSafely(r: Recipe, known: Mathness) {
    match r
    case End => true
    case Kid(_, rest) => PutsSafely(rest, MaybeMath)
    case Big(s, rest) => !Special(s) && PutsSafely(rest, if s.Indent? then NoMath else MaybeMath)
    case Put(s, rest) => !s.Dollar? && Suits(s, known) && PutsSafely(rest, known)
  }

  /** A rank that every one-scrap production lowers. */
  function Rank(c: Cat): nat {
    match c
    case RawInt | ConstLike | PublicLike | OperatorLike => 4
    case IntLike | Cast | NewLike | SectionScrap | IfClause => 3
    case Exp | DeclHead => 2
    case Colon | Semi | Prelangle | Prerangle | ElseLike | IfHead | RawRpar | RawUnorbin => 2
    case _ => 1
  }

  /** A fn_decl scrap carries two open indents. */
  function Open(c: Cat): nat {
    if c.FnDecl? then 2 else 0
  }

  /** The open indents of the `k` scraps from `at` on. */
  function OpenIn(v: View, at: nat, k: nat): nat {
    (if at == 0 < k then Open(v.c0) else 0)
    + (if at <= 1 < at + k then Open(v.c1) else 0)
    + (if at <= 2 < at + k then Open(v.c2) else 0)
    + (if at <= 3 < at + k then Open(v.c3) else 0)
  }

  /** Productions 84 and 85 replace a scrap's translation by one character. */
  predicate Replaces(n: nat) {
    n == 84 || n == 85
  }

  /** The open indents that a production loses track of: those of a fn_decl that becomes part of an end_arg. */
  function Swallows(v: View, at: nat, cat: Cat): nat {
    if cat.EndArg? && at == 0 then Open(v.c0) else 0
  }

  /** The scraps a production consumes exist, and it does not produce padding. */
  predicate InWindow(v: View, at: nat, k: nat, cat: Cat) {
    && 1 <= k && at + k <= 4 && !cat.Zero?
    && (at == 0 ==> !v.c0.Zero?)
    && (at <= 1 < at + k ==> !v.c1.Zero?)
    && (at <= 2 < at + k ==> !v.c2.Zero?)
    && (at <= 3 < at + k ==> !v.c3.Zero?)
  }

  /** What the parsing loop relies on: a production of one scrap lowers its rank, and `make_reserved` is called only
      for one of several scraps that the production consumes. */
  predicate Shapely(v: View, at: nat, k: nat, cat: Cat, reserve: Option<nat>) {
    && InWindow(v, at, k, cat)
    && (k == 1 ==> Rank(cat) < Rank(v.At(at)) && reserve.None?)
    && (reserve.Some? ==> at <= reserve.value < at + k)
  }

  predicate Replacement(c: Cat, r: Recipe) {
    || (c.Prelangle? && r == Put(LessSign, End))
    || (c.Prerangle? && r == Put(GreaterSign, End))
  }

  /** What every production keeps to. */
  predicate Legal(a: Action, v: View) {
    match a
    case NoMatch => true
    case Relabel(at, cat, d, n) =>
      d <= 1 && Shapely(v, at, 1, cat, None) && !v.At(at).FnDecl? && !cat.FnDecl?
    case Reduce(at, k, cat, d, n, reserve, start, recipe) =>
      && d <= 1 && Shapely(v, at, k, cat, reserve)
      && KidsOf(recipe) == (if Replaces(n) then [] else UpTo(at, k))
      && Indents(recipe, OpenIn(v, at, k), Open(cat) + Swallows(v, at, cat))
      && PutsSafely(recipe, start)
      && (if Replaces(n) then at == 0 && k == 1 && Replacement(v.c0, recipe) && cat.Binop?
          else start.MaybeMath?)
  }

  // ---------- the table ----------

  function KidRun(at: nat, k: nat): Recipe
    decreases k
  {
    if k == 0 then End else Kid(at, KidRun(at + 1, k - 1))
  }

  function Squash(at: nat, k: nat, cat: Cat, d: int, n: nat): Action {
    if k == 1 then Relabel(at, cat, d, n) else Reduce(at, k, cat, d, n, None, MaybeMath, KidRun(at, k))
  }

  function Red(at: nat, k: nat, cat: Cat, d: int, n: nat, recipe: Recipe): Action {
    Reduce(at, k, cat, d, n, None, MaybeMath, recipe)
  }

  /** The common beginning of productions 60, 63 and 64: a clause and its indented statement. */
  function IndentedClause(rest: Recipe): Recipe {
    Big(Force, Kid(0, Big(Indent, Big(BreakSpace, Kid(1, Big(Outdent, Big(Force, rest)))))))
  }

  /** The common beginning of productions 61, 66 and 67: a clause and its braced statement. */
  function BracedClause(rest: Recipe): Recipe {
    Big(Force, Kid(0, Big(BreakSpace, Put(Noop, Big(Cancel, Kid(1, Big(Force, rest)))))))
  }

  function ExpCases(v: View): Action
    requires v.c0.Exp?
  {
    if v.c1.Lbrace? || v.c1.IntLike? || v.c1.Decl? then
      Red(0, 1, FnDecl, 0, 1, Kid(0, Big(Indent, Put(Indent, End))))
    else if v.c1.Unop? then Squash(0, 2, Exp, -2, 2)
    else if (v.c1.Binop? || v.c1.Unorbinop?) && v.c2.Exp? then Squash(0, 3, Exp, -2, 3)
    else if v.c1.Comma? && v.c2.Exp? then
      Red(0, 3, Exp, -2, 4, Kid(0, Kid(1, Put(Opt, Put(Nine, Kid(2, End))))))
    else if v.c1.Exp? || v.c1.Cast? then Squash(0, 2, Exp, -2, 5)
    else if v.c1.Semi? then Squash(0, 2, Stmt, -1, 6)
    else if v.c1.Colon? then Squash(0, 2, Tag, 0, 7)
    else if v.c1.Base? then ExpBaseCases(v)
    else if v.c1.Rbrace? then Squash(0, 1, Stmt, -1, 10)
    else NoMatch
  }

  function ExpBaseCases(v: View): Action
    requires v.c0.Exp? && v.c1.Base?
  {
    if v.c2.IntLike? && v.c3.Comma? then
      Red(1, 3, Base, 0, 8, Kid(1, Big(Blank, Kid(2, Kid(3, Put(Opt, Put(Nine, End)))))))
    else if v.c2.IntLike? && v.c3.Lbrace? then
      Red(0, 3, Exp, -1, 9, Kid(0, Big(Blank, Kid(1, Big(Blank, Kid(2, End))))))
    else NoMatch
  }

  function LparCases(v: View): Action
    requires v.c0.Lpar?
  {
    if (v.c1.Exp? || v.c1.Unorbinop?) && v.c2.Rpar? then Squash(0, 3, Exp, -2, 11)
    else if v.c1.Rpar? then
      Red(0, 2, Exp, -2, 12, Kid(0, Put(Backslash, Put(CommaSign, Kid(1, End)))))
    else if v.c1.DeclHead? || v.c1.IntLike? || v.c1.Exp? then
      if v.c2.Rpar? then Squash(0, 3, Cast, -2, 13)
      else if v.c2.Comma? then
        Red(0, 3, Lpar, 0, 14, Kid(0, Kid(1, Kid(2, Put(Opt, Put(Nine, End))))))
      else NoMatch
    else if v.c1.Stmt? || v.c1.Decl? then
      Red(0, 2, Lpar, 0, 15, Kid(0, Kid(1, Big(Blank, End))))
    else NoMatch
  }

  function QuestionCases(v: View): Action
    requires v.c0.Question?
  {
    if v.c1.Exp? && v.c2.Colon? then Squash(0, 3, Binop, -2, 16) else NoMatch
  }

  function UnopCases(v: View): Action
    requires v.c0.Unop?
  {
    if v.c1.Exp? || v.c1.IntLike? then Squash(0, 2, v.c1, -2, 17) else NoMatch
  }

  function UnorbinopCases(v: View): Action
    requires v.c0.Unorbinop?
  {
    if v.c1.Exp? || v.c1.IntLike? then
      Red(0, 2, v.c1, -2, 18, Big(BraceL, Kid(0, Big(BraceR, Kid(1, End)))))
    else if v.c1.Binop? then
      Red(0, 2, Binop, -1, 19,
          Big(MathRel, Kid(0, Big(BraceL, Kid(1, Big(BraceR, Big(BraceR, End)))))))
    else NoMatch
  }

  function BinopCases(v: View): Action
    requires v.c0.Binop?
  {
    if v.c1.Binop? then
      Red(0, 2, Binop, -1, 20,
          Big(MathRel, Big(BraceL, Kid(0, Big(BraceR, Big(BraceL, Kid(1, Big(BraceR, Big(BraceR, End)))))))))
    else NoMatch
  }

  function CastCases(v: View): Action
    requires v.c0.Cast?
  {
    if v.c1.Exp? then Red(0, 2, Exp, -2, 21, Kid(0, Big(Blank, Kid(1, End))))
    else if v.c1.Semi? then Squash(0, 1, Exp, -2, 22)
    else NoMatch
  }

  function SizeofCases(v: View): Action
    requires v.c0.SizeofLike?
  {
    if v.c1.Cast? then Squash(0, 2, Exp, -2, 23)
    else if v.c1.Exp? then Red(0, 2, Exp, -2, 24, Kid(0, Big(Blank, Kid(1, End))))
    else NoMatch
  }

  function IntCases(v: View): Action
    requires v.c0.IntLike?
  {
    if v.c1.IntLike? || v.c1.StructLike? then
      Red(0, 2, v.c1, -2, 25, Kid(0, Big(Blank, Kid(1, End))))
    else if v.c1.Exp? && (v.c2.RawInt? || v.c2.StructLike?) then Squash(0, 2, IntLike, -2, 26)
    else if v.c1.Exp? || v.c1.Unorbinop? || v.c1.Semi? then
      Red(0, 1, DeclHead, -1, 27, if !v.c1.Semi? then Kid(0, Big(Blank, End)) else Kid(0, End))
    else if v.c1.Colon? then Red(0, 1, DeclHead, 0, 28, Kid(0, Big(Blank, End)))
    else if v.c1.Prelangle? then Squash(1, 1, Langle, 1, 29)
    else if v.c1.Colcol? && (v.c2.Exp? || v.c2.IntLike?) then Squash(0, 3, v.c2, -2, 30)
    else if v.c1.Cast? then IntCastCases(v)
    else NoMatch
  }

  function IntCastCases(v: View): Action
    requires v.c0.IntLike? && v.c1.Cast?
  {
    if v.c2.Lbrace? then
      Red(0, 2, FnDecl, 1, 31, Kid(0, Kid(1, Big(Indent, Big(Indent, End)))))
    else Squash(0, 2, IntLike, -2, 32)
  }

  function DeclHeadCases(v: View): Action
    requires v.c0.DeclHead?
  {
    if v.c1.Comma? then Red(0, 2, DeclHead, -1, 33, Kid(0, Kid(1, Big(Blank, End))))
    else if v.c1.Unorbinop? then
      Red(0, 2, DeclHead, -1, 34, Kid(0, Big(BraceL, Kid(1, Big(BraceR, End)))))
    else if v.c1.Exp? && !v.c2.Lpar? && !v.c2.Exp? then Squash(0, 2, DeclHead, -1, 35)
    else if (v.c1.Binop? || v.c1.Colon?) && v.c2.Exp? && (v.c3.Comma? || v.c3.Semi? || v.c3.Rpar?) then
      Squash(0, 3, DeclHead, -1, 36)
    else if v.c1.Cast? then Squash(0, 2, DeclHead, -1, 37)
    else if v.c1.Lbrace? || (v.c1.IntLike? && !v.c2.Colcol?) || v.c1.Decl? then
      Red(0, 1, FnDecl, 0, 38, Kid(0, Big(Indent, Put(Indent, End))))
    else if v.c1.Semi? then Squash(0, 2, Decl, -1, 39)
    else NoMatch
  }

  function DeclCases(v: View): Action
    requires v.c0.Decl?
  {
    if v.c1.Decl? then Red(0, 2, Decl, -1, 40, Kid(0, Big(Force, Kid(1, End))))
    else if v.c1.Stmt? || v.c1.Function? then
      Red(0, 2, v.c1, -1, 41, Kid(0, Big(BigForce, Kid(1, End))))
    else NoMatch
  }

  function TypedefCases(v: View): Action
    requires v.c0.TypedefLike?
  {
    if v.c1.DeclHead? then
      if (v.c2.Exp? && !v.c3.Lpar? && !v.c3.Exp?) || v.c2.IntLike? then
        Reduce(1, 2, DeclHead, 0, 42, Some(2), MaybeMath, Kid(1, Kid(2, End)))
      else if v.c2.Semi? then
        Red(0, 3, Decl, -1, 43, Kid(0, Big(Blank, Kid(1, Kid(2, End)))))
      else NoMatch
    else NoMatch
  }

  function StructCases(v: View): Action
    requires v.c0.StructLike?
  {
    if v.c1.Lbrace? then Red(0, 2, StructHead, 0, 44, Kid(0, Big(Blank, Kid(1, End))))
    else if v.c1.Exp? || v.c1.IntLike? then StructNameCases(v)
    else NoMatch
  }

  function StructNameCases(v: View): Action
    requires v.c0.StructLike? && (v.c1.Exp? || v.c1.IntLike?)
  {
    if v.c2.Lbrace? || v.c2.Semi? then
      if v.c2.Semi? then
        Reduce(0, 2, DeclHead, 0, 45, Some(1), MaybeMath, Kid(0, Big(Blank, Kid(1, End))))
      else
        Reduce(0, 3, StructHead, 0, 46, Some(1), MaybeMath, Kid(0, Big(Blank, Kid(1, Big(Blank, Kid(2, End))))))
    else if v.c2.Colon? then Squash(2, 1, Base, -1, 47)
    else if !v.c2.Base? then Red(0, 2, IntLike, -2, 48, Kid(0, Big(Blank, Kid(1, End))))
    else NoMatch
  }

  function StructHeadCases(v: View): Action
    requires v.c0.StructHead?
  {
    if (v.c1.Decl? || v.c1.Stmt? || v.c1.Function?) && v.c2.Rbrace? then
      Red(0, 3, IntLike, -2, 49,
          Kid(0, Big(Indent, Big(Force, Kid(1, Big(Outdent, Big(Force, Kid(2, End))))))))
    else if v.c1.Rbrace? then
      Red(0, 2, IntLike, -2, 50, Kid(0, Put(Backslash, Put(CommaSign, Kid(1, End)))))
    else NoMatch
  }

  function FnDeclCases(v: View): Action
    requires v.c0.FnDecl?
  {
    if v.c1.Decl? then Red(0, 2, FnDecl, 0, 51, Kid(0, Big(Force, Kid(1, End))))
    else if v.c1.Stmt? then
      Red(0, 2, Function, -1, 52, Kid(0, Put(Outdent, Put(Outdent, Big(Force, Kid(1, End))))))
    else NoMatch
  }

  function FunctionCases(v: View): Action
    requires v.c0.Function?
  {
    if v.c1.Function? || v.c1.Decl? || v.c1.Stmt? then
      Red(0, 2, v.c1, -1, 53, Kid(0, Big(BigForce, Kid(1, End))))
    else NoMatch
  }

  function LbraceCases(v: View): Action
    requires v.c0.Lbrace?
  {
    if v.c1.Rbrace? then
      Red(0, 2, Stmt, -1, 54, Kid(0, Put(Backslash, Put(CommaSign, Kid(1, End)))))
    else if (v.c1.Stmt? || v.c1.Decl? || v.c1.Function?) && v.c2.Rbrace? then
      Red(0, 3, Stmt, -1, 55, IndentedBlock())
    else if v.c1.Exp? then
      if v.c2.Rbrace? then Squash(0, 3, Exp, -2, 56)
      else if v.c2.Comma? && v.c3.Rbrace? then Squash(0, 4, Exp, -2, 56)
      else NoMatch
    else NoMatch
  }

  /** The statements of a compound statement on lines of their own. */
  function IndentedBlock(): Recipe {
    Big(Force, Kid(0, Big(Indent, Big(Force, Kid(1, Big(Force, Big(Backup, Kid(2, Big(Outdent, Big(Force, End))))))))))
  }

  function DoCases(v: View): Action
    requires v.c0.DoLike?
  {
    if v.c1.Stmt? && v.c2.ElseLike? && v.c3.Semi? then
      Red(0, 4, Stmt, -1, 69,
          Kid(0, Big(BreakSpace, Put(Noop, Big(Cancel, Kid(1, Big(Cancel, Put(Noop, Big(BreakSpace,
          Kid(2, Kid(3, End)))))))))))
    else NoMatch
  }

  function IfCases(v: View): Action
    requires v.c0.IfLike?
  {
    if v.c1.Exp? then Red(0, 2, IfClause, 0, 57, Kid(0, Big(Blank, Kid(1, End)))) else NoMatch
  }

  function ForCases(v: View): Action
    requires v.c0.ForLike?
  {
    if v.c1.Exp? then Red(0, 2, ElseLike, -2, 58, Kid(0, Big(Blank, Kid(1, End)))) else NoMatch
  }

  function ElseCases(v: View): Action
    requires v.c0.ElseLike?
  {
    if v.c1.Lbrace? then Squash(0, 1, ElseHead, 0, 59)
    else if v.c1.Stmt? then
      Red(0, 2, Stmt, -1, 60, IndentedClause(End))
    else NoMatch
  }

  function ElseHeadCases(v: View): Action
    requires v.c0.ElseHead?
  {
    if v.c1.Stmt? || v.c1.Exp? then
      Red(0, 2, Stmt, -1, 61, BracedClause(End))
    else NoMatch
  }

  function IfClauseCases(v: View): Action
    requires v.c0.IfClause?
  {
    if v.c1.Lbrace? then Squash(0, 1, IfHead, 0, 62)
    else if v.c1.Stmt? then
      if v.c2.ElseLike? then IfClauseElseCases(v)
      else Squash(0, 1, ElseLike, 0, 65)
    else NoMatch
  }

  function IfClauseElseCases(v: View): Action
    requires v.c0.IfClause? && v.c1.Stmt? && v.c2.ElseLike?
  {
    if v.c3.IfLike? then Red(0, 4, IfLike, 0, 63, IndentedClause(Kid(2, Big(Blank, Kid(3, End)))))
    else Red(0, 3, ElseLike, 0, 64, IndentedClause(Kid(2, End)))
  }

  function IfHeadElseCases(v: View): Action
    requires v.c0.IfHead? && (v.c1.Stmt? || v.c1.Exp?) && v.c2.ElseLike?
  {
    if v.c3.IfLike? then Red(0, 4, IfLike, 0, 66, BracedClause(Kid(2, Big(Blank, Kid(3, End)))))
    else Red(0, 3, ElseLike, 0, 67, BracedClause(Kid(2, End)))
  }

  function IfHeadCases(v: View): Action
    requires v.c0.IfHead?
  {
    if v.c1.Stmt? || v.c1.Exp? then
      if v.c2.ElseLike? then IfHeadElseCases(v)
      else Squash(0, 1, ElseHead, 0, 68)
    else NoMatch
  }

  function CaseCases(v: View): Action
    requires v.c0.CaseLike?
  {
    if v.c1.Semi? then Squash(0, 2, Stmt, -1, 70)
    else if v.c1.Colon? then Squash(0, 2, Tag, -1, 71)
    else if v.c1.Exp? then
      if v.c2.Semi? then Red(0, 3, Stmt, -1, 72, Kid(0, Big(Blank, Kid(1, Kid(2, End)))))
      else if v.c2.Colon? then Red(0, 3, Tag, -1, 73, Kid(0, Big(Blank, Kid(1, Kid(2, End)))))
      else NoMatch
    else NoMatch
  }

  function TagCases(v: View): Action
    requires v.c0.Tag?
  {
    if v.c1.Tag? then Red(0, 2, Tag, -1, 74, Kid(0, Big(BreakSpace, Kid(1, End))))
    else if v.c1.Stmt? || v.c1.Decl? || v.c1.Function? then
      Red(0, 2, v.c1, -1, 75, Big(Force, Big(Backup, Kid(0, Big(BreakSpace, Kid(1, End))))))
    else NoMatch
  }

  function StmtCases(v: View): Action
    requires v.c0.Stmt?
  {
    if v.c1.Stmt? || v.c1.Decl? || v.c1.Function? then
      if v.c1.Function? then Red(0, 2, v.c1, -1, 76, Kid(0, Big(BigForce, Kid(1, End))))
      else if v.c1.Decl? then Red(0, 2, v.c1, -1, 76, Kid(0, Big(BigForce, Kid(1, End))))
      else if v.forceLines then Red(0, 2, v.c1, -1, 76, Kid(0, Big(Force, Kid(1, End))))
      else Red(0, 2, v.c1, -1, 76, Kid(0, Big(BreakSpace, Kid(1, End))))
    else NoMatch
  }

  function SemiCases(v: View): Action
    requires v.c0.Semi?
  {
    Red(0, 1, Stmt, -1, 77, Big(Blank, Kid(0, End)))
  }

  function LprocCases(v: View): Action
    requires v.c0.Lproc?
  {
    if v.c1.ElseLike? || v.c1.IfLike? || v.c1.DefineLike? then Squash(0, 2, Lproc, 0, 78)
    else if v.c1.Rproc? then Red(0, 2, Insert, -1, 79, Put(Inserted, Kid(0, Kid(1, End))))
    else if v.c1.Exp? || v.c1.Function? then LprocExpCases(v)
    else NoMatch
  }

  function LprocExpCases(v: View): Action
    requires v.c0.Lproc? && (v.c1.Exp? || v.c1.Function?)
  {
    if v.c2.Rproc? then
      Red(0, 3, Insert, -1, 80, Put(Inserted, Kid(0, Big(Blank, Kid(1, Kid(2, End))))))
    else if v.c2.Exp? && v.c3.Rproc? && v.c1.Exp? then
      Red(0, 4, Insert, -1, 80, TwoPartInsert())
    else NoMatch
  }

  /** A preprocessor line of two expressions. */
  function TwoPartInsert(): Recipe {
    Put(Inserted, Kid(0, Big(Blank, Kid(1, Put(Blank, Put(Backslash, Put(Five, Kid(2, Kid(3, End)))))))))
  }

  function SectionCases(v: View): Action
    requires v.c0.SectionScrap?
  {
    if v.c1.Semi? then Red(0, 2, Stmt, -2, 81, Kid(0, Kid(1, Big(Force, End))))
    else Squash(0, 1, Exp, -2, 82)
  }

  function InsertCases(v: View): Action
    requires v.c0.Insert?
  {
    if !v.c1.Zero? then Squash(0, 2, v.c1, 0, 83) else NoMatch
  }

  function PrelangleCases(v: View): Action
    requires v.c0.Prelangle?
  {
    Reduce(0, 1, Binop, -2, 84, None, YesMath, Put(LessSign, End))
  }

  function PrerangleCases(v: View): Action
    requires v.c0.Prerangle?
  {
    Reduce(0, 1, Binop, -2, 85, None, YesMath, Put(GreaterSign, End))
  }

  function LangleCases(v: View): Action
    requires v.c0.Langle?
  {
    if v.c1.Exp? && v.c2.Prerangle? then Squash(0, 3, Cast, -1, 86)
    else if v.c1.Prerangle? then
      Red(0, 2, Cast, -1, 87, Kid(0, Put(Backslash, Put(CommaSign, Kid(1, End)))))
    else if v.c1.DeclHead? || v.c1.IntLike? then
      if v.c2.Prerangle? then Squash(0, 3, Cast, -1, 88)
      else if v.c2.Comma? then
        Red(0, 3, Langle, 0, 89, Kid(0, Kid(1, Kid(2, Put(Opt, Put(Nine, End))))))
      else NoMatch
    else NoMatch
  }

  function PublicCases(v: View): Action
    requires v.c0.PublicLike?
  {
    if v.c1.Colon? then Squash(0, 2, Tag, -1, 90) else Squash(0, 1, IntLike, -2, 91)
  }

  function ColcolCases(v: View): Action
    requires v.c0.Colcol?
  {
    if v.c1.Exp? || v.c1.IntLike? then Squash(0, 2, v.c1, -2, 92) else NoMatch
  }

  function NewCases(v: View): Action
    requires v.c0.NewLike?
  {
    if v.c1.Exp? || (v.c1.RawInt? && !v.c2.Prelangle? && !v.c2.Langle?) then
      Red(0, 2, NewLike, 0, 93, Kid(0, Big(Blank, Kid(1, End))))
    else if v.c1.RawUnorbin? || v.c1.Colcol? then Squash(0, 2, NewLike, 0, 94)
    else if v.c1.Cast? then Squash(0, 2, Exp, -2, 95)
    else if !v.c1.Lpar? && !v.c1.RawInt? && !v.c1.StructLike? then Squash(0, 1, Exp, -2, 96)
    else NoMatch
  }

  function OperatorCases(v: View): Action
    requires v.c0.OperatorLike?
  {
    if v.c1.Binop? || v.c1.Unop? || v.c1.Unorbinop? then
      if v.c2.Binop? then NoMatch
      else Red(0, 2, Exp, -2, 97, Kid(0, Big(BraceL, Kid(1, Big(BraceR, End)))))
    else if v.c1.NewLike? || v.c1.SizeofLike? then
      Red(0, 2, Exp, -2, 98, Kid(0, Big(Blank, Kid(1, End))))
    else Squash(0, 1, NewLike, 0, 99)
  }

  function CatchCases(v: View): Action
    requires v.c0.CatchLike?
  {
    if v.c1.Cast? || v.c1.Exp? then
      Red(0, 2, FnDecl, 0, 100, Kid(0, Kid(1, Big(Indent, Big(Indent, End)))))
    else NoMatch
  }

  function BaseCases(v: View): Action
    requires v.c0.Base?
  {
    if v.c1.PublicLike? && v.c2.Exp? then
      if v.c3.Comma? then Red(0, 4, Base, 0, 101, Kid(0, Kid(1, Big(Blank, Kid(2, Kid(3, End))))))
      else Red(1, 2, IntLike, -1, 102, Kid(1, Big(Blank, Kid(2, End))))
    else NoMatch
  }

  function RawRparCases(v: View): Action
    requires v.c0.RawRpar?
  {
    if v.c1.ConstLike?
       && (v.c2.Semi? || v.c2.Lbrace? || v.c2.Comma? || v.c2.Binop? || v.c2.ConstLike?) then
      Red(0, 2, RawRpar, 0, 103, Kid(0, Big(Blank, Kid(1, End))))
    else Squash(0, 1, Rpar, -3, 104)
  }

  function RawUnorbinCases(v: View): Action
    requires v.c0.RawUnorbin?
  {
    if v.c1.ConstLike? then
      Red(0, 2, RawUnorbin, 0, 105, Kid(0, Kid(1, Put(Backslash, Put(Blank, End)))))
    else Squash(0, 1, Unorbinop, -2, 106)
  }

  function ConstCases(v: View): Action
    requires v.c0.ConstLike?
  {
    Squash(0, 1, IntLike, -2, 107)
  }

  function RawIntCases(v: View): Action
    requires v.c0.RawInt?
  {
    if v.c1.Lpar? then Squash(0, 1, Exp, -2, 108) else Squash(0, 1, IntLike, -3, 109)
  }

  /** `lhs_not_simple`: the scrap at `pp` has no production that applies whatever follows. */
  predicate LhsNotSimple(c: Cat) {
    !c.Semi? && !c.RawInt? && !c.RawUnorbin? && !c.RawRpar? && !c.ConstLike?
  }

  /** The big switch. */
  function CaseOf(v: View): Action {
    match v.c0
    case Exp => ExpCases(v)
    case Lpar => LparCases(v)
    case Question => QuestionCases(v)
    case Unop => UnopCases(v)
    case Unorbinop => UnorbinopCases(v)
    case Binop => BinopCases(v)
    case Cast => CastCases(v)
    case SizeofLike => SizeofCases(v)
    case IntLike => IntCases(v)
    case DeclHead => DeclHeadCases(v)
    case Decl => DeclCases(v)
    case TypedefLike => TypedefCases(v)
    case StructLike => StructCases(v)
    case StructHead => StructHeadCases(v)
    case FnDecl => FnDeclCases(v)
    case Function => FunctionCases(v)
    case Lbrace => LbraceCases(v)
    case DoLike => DoCases(v)
    case IfLike => IfCases(v)
    case ForLike => ForCases(v)
    case ElseLike => ElseCases(v)
    case IfClause => IfClauseCases(v)
    case IfHead => IfHeadCases(v)
    case ElseHead => ElseHeadCases(v)
    case CaseLike => CaseCases(v)
    case Stmt => StmtCases(v)
    case Tag => TagCases(v)
    case Semi => SemiCases(v)
    case Lproc => LprocCases(v)
    case SectionScrap => SectionCases(v)
    case Insert => InsertCases(v)
    case Prelangle => PrelangleCases(v)
    case Prerangle => PrerangleCases(v)
    case Langle => LangleCases(v)
    case PublicLike => PublicCases(v)
    case Colcol => ColcolCases(v)
    case NewLike => NewCases(v)
    case OperatorLike => OperatorCases(v)
    case CatchLike => CatchCases(v)
    case Base => BaseCases(v)
    case RawRpar => RawRparCases(v)
    case RawUnorbin => RawUnorbinCases(v)
    case ConstLike => ConstCases(v)
    case RawInt => RawIntCases(v)
    case _ => NoMatch
  }

  /** What the parser does at a position where it sees `v`: first the macro-argument and insert productions,
      then the big switch. */
  function Production(v: View): Action {
    if v.c1.EndArg? && LhsNotSimple(v.c0) then
      if v.c0.BeginArg? then Squash(0, 2, Exp, -2, 110) else Squash(0, 2, EndArg, -1, 111)
    else if v.c1.Insert? then Squash(0, 2, v.c0, -2, 0)
    else if v.c2.Insert? then Squash(1, 2, v.c1, -1, 0)
    else if v.c3.Insert? then Squash(2, 2, v.c2, 0, 0)
    else CaseOf(v)
  }

  // ---------- every production is legal ----------

  lemma ExpBaseCasesLegal(v: View)
    requires v.c0.Exp? && v.c1.Base?
    ensures Legal(ExpBaseCases(v), v)
  {
  }

  lemma ExpOperandCasesLegal(v: View)
    requires v.c0.Exp? && (v.c1.Unop? || v.c1.Binop? || v.c1.Unorbinop? || v.c1.Comma?)
    ensures Legal(ExpCases(v), v)
  {
  }

  lemma ExpOtherCasesLegal(v: View)
    requires v.c0.Exp? && !(v.c1.Unop? || v.c1.Binop? || v.c1.Unorbinop? || v.c1.Comma?)
    ensures Legal(ExpCases(v), v)
  {
    hide ExpBaseCases;
    if v.c1.Base? {
      ExpBaseCasesLegal(v);
    }
  }

  lemma ExpCasesLegal(v: View)
    requires v.c0.Exp?
    ensures Legal(ExpCases(v), v)
  {
    hide ExpCases, Legal;
    if v.c1.Unop? || v.c1.Binop? || v.c1.Unorbinop? || v.c1.Comma? {
      ExpOperandCasesLegal(v);
    } else {
      ExpOtherCasesLegal(v);
    }
  }

  lemma LparClosedCasesLegal(v: View)
    requires v.c0.Lpar? && (v.c2.Rpar? || v.c2.Comma?) && v.c2.Rpar?
    ensures Legal(LparCases(v), v)
  {
  }

  lemma LparCommaCasesLegal(v: View)
    requires v.c0.Lpar? && (v.c2.Rpar? || v.c2.Comma?) && !v.c2.Rpar?
    ensures Legal(LparCases(v), v)
  {
  }

  lemma LparExpCasesLegal(v: View)
    requires v.c0.Lpar? && (v.c2.Rpar? || v.c2.Comma?)
    ensures Legal(LparCases(v), v)
  {
    hide LparCases, Legal;
    if v.c2.Rpar? {
      LparClosedCasesLegal(v);
    } else {
      LparCommaCasesLegal(v);
    }
  }

  lemma LparOtherCasesLegal(v: View)
    requires v.c0.Lpar? && !(v.c2.Rpar? || v.c2.Comma?)
    ensures Legal(LparCases(v), v)
  {
  }

  lemma LparCasesLegal(v: View)
    requires v.c0.Lpar?
    ensures Legal(LparCases(v), v)
  {
    hide LparCases, Legal;
    if v.c2.Rpar? || v.c2.Comma? {
      LparExpCasesLegal(v);
    } else {
      LparOtherCasesLegal(v);
    }
  }

  lemma QuestionCasesLegal(v: View)
    requires v.c0.Question?
    ensures Legal(QuestionCases(v), v)
  {
  }

  lemma UnopCasesLegal(v: View)
    requires v.c0.Unop?
    ensures Legal(UnopCases(v), v)
  {
  }

  lemma UnorbinopCasesLegal(v: View)
    requires v.c0.Unorbinop?
    ensures Legal(UnorbinopCases(v), v)
  {
  }

  lemma BinopCasesLegal(v: View)
    requires v.c0.Binop?
    ensures Legal(BinopCases(v), v)
  {
  }

  lemma CastCasesLegal(v: View)
    requires v.c0.Cast?
    ensures Legal(CastCases(v), v)
  {
  }

  lemma SizeofCasesLegal(v: View)
    requires v.c0.SizeofLike?
    ensures Legal(SizeofCases(v), v)
  {
  }

  lemma IntCastCasesLegal(v: View)
    requires v.c0.IntLike? && v.c1.Cast?
    ensures Legal(IntCastCases(v), v)
  {
  }

  lemma IntNameCasesLegal(v: View)
    requires v.c0.IntLike? && (v.c1.Exp? || v.c1.Unorbinop? || v.c1.Semi?)
    ensures Legal(IntCases(v), v)
  {
  }

  lemma IntOtherCasesLegal(v: View)
    requires v.c0.IntLike? && !(v.c1.Exp? || v.c1.Unorbinop? || v.c1.Semi?)
    ensures Legal(IntCases(v), v)
  {
    hide IntCastCases;
    if v.c1.Cast? {
      IntCastCasesLegal(v);
    }
  }

  lemma IntCasesLegal(v: View)
    requires v.c0.IntLike?
    ensures Legal(IntCases(v), v)
  {
    hide IntCases, Legal;
    if v.c1.Exp? || v.c1.Unorbinop? || v.c1.Semi? {
      IntNameCasesLegal(v);
    } else {
      IntOtherCasesLegal(v);
    }
  }

  lemma DeclHeadPartCasesLegal(v: View)
    requires v.c0.DeclHead? && (v.c1.Comma? || v.c1.Unorbinop? || v.c1.Exp?)
    ensures Legal(DeclHeadCases(v), v)
  {
  }

  lemma DeclHeadOtherCasesLegal(v: View)
    requires v.c0.DeclHead? && !(v.c1.Comma? || v.c1.Unorbinop? || v.c1.Exp?)
    ensures Legal(DeclHeadCases(v), v)
  {
  }

  lemma DeclHeadCasesLegal(v: View)
    requires v.c0.DeclHead?
    ensures Legal(DeclHeadCases(v), v)
  {
    hide DeclHeadCases, Legal;
    if v.c1.Comma? || v.c1.Unorbinop? || v.c1.Exp? {
      DeclHeadPartCasesLegal(v);
    } else {
      DeclHeadOtherCasesLegal(v);
    }
  }

  lemma DeclCasesLegal(v: View)
    requires v.c0.Decl?
    ensures Legal(DeclCases(v), v)
  {
  }

  lemma TypedefCasesLegal(v: View)
    requires v.c0.TypedefLike?
    ensures Legal(TypedefCases(v), v)
  {
  }

  lemma StructDeclCasesLegal(v: View)
    requires v.c0.StructLike? && (v.c1.Exp? || v.c1.IntLike?) && (v.c2.Lbrace? || v.c2.Semi?)
    ensures Legal(StructNameCases(v), v)
  {
  }

  lemma StructOtherCasesLegal(v: View)
    requires v.c0.StructLike? && (v.c1.Exp? || v.c1.IntLike?) && !(v.c2.Lbrace? || v.c2.Semi?)
    ensures Legal(StructNameCases(v), v)
  {
  }

  lemma StructNameCasesLegal(v: View)
    requires v.c0.StructLike? && (v.c1.Exp? || v.c1.IntLike?)
    ensures Legal(StructNameCases(v), v)
  {
    hide StructNameCases, Legal;
    if v.c2.Lbrace? || v.c2.Semi? {
      StructDeclCasesLegal(v);
    } else {
      StructOtherCasesLegal(v);
    }
  }

  lemma StructCasesLegal(v: View)
    requires v.c0.StructLike?
    ensures Legal(StructCases(v), v)
  {
    hide StructNameCases;
    if v.c1.Exp? || v.c1.IntLike? {
      StructNameCasesLegal(v);
    }
  }

  lemma StructEmptyCasesLegal(v: View)
    requires v.c0.StructHead? && v.c1.Rbrace?
    ensures Legal(StructHeadCases(v), v)
  {
  }

  lemma StructBodyCasesLegal(v: View)
    requires v.c0.StructHead? && !(v.c1.Rbrace?)
    ensures Legal(StructHeadCases(v), v)
  {
  }

  lemma StructHeadCasesLegal(v: View)
    requires v.c0.StructHead?
    ensures Legal(StructHeadCases(v), v)
  {
    hide StructHeadCases, Legal;
    if v.c1.Rbrace? {
      StructEmptyCasesLegal(v);
    } else {
      StructBodyCasesLegal(v);
    }
  }

  lemma FnDeclCasesLegal(v: View)
    requires v.c0.FnDecl?
    ensures Legal(FnDeclCases(v), v)
  {
  }

  lemma FunctionCasesLegal(v: View)
    requires v.c0.Function?
    ensures Legal(FunctionCases(v), v)
  {
  }

  lemma IndentedBlockLegal()
    ensures KidsOf(IndentedBlock()) == UpTo(0, 3) && Indents(IndentedBlock(), 0, 0)
    ensures PutsSafely(IndentedBlock(), MaybeMath)
  {
  }

  lemma LbraceExpCasesLegal(v: View)
    requires v.c0.Lbrace? && v.c1.Exp?
    ensures Legal(LbraceCases(v), v)
  {
    hide IndentedBlock;
    IndentedBlockLegal();
  }

  lemma LbraceOtherCasesLegal(v: View)
    requires v.c0.Lbrace? && !(v.c1.Exp?)
    ensures Legal(LbraceCases(v), v)
  {
    hide IndentedBlock;
    IndentedBlockLegal();
  }

  lemma LbraceCasesLegal(v: View)
    requires v.c0.Lbrace?
    ensures Legal(LbraceCases(v), v)
  {
    hide LbraceCases, Legal;
    if v.c1.Exp? {
      LbraceExpCasesLegal(v);
    } else {
      LbraceOtherCasesLegal(v);
    }
  }

  lemma DoCasesLegal(v: View)
    requires v.c0.DoLike?
    ensures Legal(DoCases(v), v)
  {
  }

  lemma IfCasesLegal(v: View)
    requires v.c0.IfLike?
    ensures Legal(IfCases(v), v)
  {
  }

  lemma ForCasesLegal(v: View)
    requires v.c0.ForLike?
    ensures Legal(ForCases(v), v)
  {
  }

  lemma ElseCasesLegal(v: View)
    requires v.c0.ElseLike?
    ensures Legal(ElseCases(v), v)
  {
  }

  lemma ElseHeadCasesLegal(v: View)
    requires v.c0.ElseHead?
    ensures Legal(ElseHeadCases(v), v)
  {
  }

  lemma IfClauseElseIfLegal(v: View)
    requires v.c0.IfClause? && v.c1.Stmt? && v.c2.ElseLike? && v.c3.IfLike?
    ensures Legal(IfClauseElseCases(v), v)
  {
  }

  lemma IfClauseLastElseLegal(v: View)
    requires v.c0.IfClause? && v.c1.Stmt? && v.c2.ElseLike? && !v.c3.IfLike?
    ensures Legal(IfClauseElseCases(v), v)
  {
  }

  lemma IfClauseElseCasesLegal(v: View)
    requires v.c0.IfClause? && v.c1.Stmt? && v.c2.ElseLike?
    ensures Legal(IfClauseElseCases(v), v)
  {
    hide IfClauseElseCases, Legal;
    if v.c3.IfLike? {
      IfClauseElseIfLegal(v);
    } else {
      IfClauseLastElseLegal(v);
    }
  }

  lemma IfClauseCasesLegal(v: View)
    requires v.c0.IfClause?
    ensures Legal(IfClauseCases(v), v)
  {
    hide IfClauseElseCases;
    if v.c1.Stmt? && v.c2.ElseLike? {
      IfClauseElseCasesLegal(v);
    }
  }

  lemma IfHeadElseIfLegal(v: View)
    requires v.c0.IfHead? && (v.c1.Stmt? || v.c1.Exp?) && v.c2.ElseLike? && v.c3.IfLike?
    ensures Legal(IfHeadElseCases(v), v)
  {
  }

  lemma IfHeadLastElseLegal(v: View)
    requires v.c0.IfHead? && (v.c1.Stmt? || v.c1.Exp?) && v.c2.ElseLike? && !v.c3.IfLike?
    ensures Legal(IfHeadElseCases(v), v)
  {
  }

  lemma IfHeadElseCasesLegal(v: View)
    requires v.c0.IfHead? && (v.c1.Stmt? || v.c1.Exp?) && v.c2.ElseLike?
    ensures Legal(IfHeadElseCases(v), v)
  {
    hide IfHeadElseCases, Legal;
    if v.c3.IfLike? {
      IfHeadElseIfLegal(v);
    } else {
      IfHeadLastElseLegal(v);
    }
  }

  lemma IfHeadCasesLegal(v: View)
    requires v.c0.IfHead?
    ensures Legal(IfHeadCases(v), v)
  {
    hide IfHeadElseCases;
    if (v.c1.Stmt? || v.c1.Exp?) && v.c2.ElseLike? {
      IfHeadElseCasesLegal(v);
    }
  }

  lemma CaseCasesLegal(v: View)
    requires v.c0.CaseLike?
    ensures Legal(CaseCases(v), v)
  {
  }

  lemma TagCasesLegal(v: View)
    requires v.c0.Tag?
    ensures Legal(TagCases(v), v)
  {
  }

  lemma StmtCasesLegal(v: View)
    requires v.c0.Stmt?
    ensures Legal(StmtCases(v), v)
  {
  }

  lemma SemiCasesLegal(v: View)
    requires v.c0.Semi?
    ensures Legal(SemiCases(v), v)
  {
  }

  lemma TwoPartInsertLegal()
    ensures KidsOf(TwoPartInsert()) == UpTo(0, 4) && Indents(TwoPartInsert(), 0, 0)
    ensures PutsSafely(TwoPartInsert(), MaybeMath)
  {
  }

  lemma LprocExpCasesLegal(v: View)
    requires v.c0.Lproc? && (v.c1.Exp? || v.c1.Function?)
    ensures Legal(LprocExpCases(v), v)
  {
    hide TwoPartInsert;
    TwoPartInsertLegal();
  }

  lemma LprocCasesLegal(v: View)
    requires v.c0.Lproc?
    ensures Legal(LprocCases(v), v)
  {
    hide LprocExpCases;
    if v.c1.Exp? || v.c1.Function? {
      LprocExpCasesLegal(v);
    }
  }

  lemma SectionCasesLegal(v: View)
    requires v.c0.SectionScrap?
    ensures Legal(SectionCases(v), v)
  {
  }

  lemma InsertCasesLegal(v: View)
    requires v.c0.Insert?
    ensures Legal(InsertCases(v), v)
  {
  }

  lemma PrelangleCasesLegal(v: View)
    requires v.c0.Prelangle?
    ensures Legal(PrelangleCases(v), v)
  {
  }

  lemma PrerangleCasesLegal(v: View)
    requires v.c0.Prerangle?
    ensures Legal(PrerangleCases(v), v)
  {
  }

  lemma LangleCasesLegal(v: View)
    requires v.c0.Langle?
    ensures Legal(LangleCases(v), v)
  {
  }

  lemma PublicCasesLegal(v: View)
    requires v.c0.PublicLike?
    ensures Legal(PublicCases(v), v)
  {
  }

  lemma ColcolCasesLegal(v: View)
    requires v.c0.Colcol?
    ensures Legal(ColcolCases(v), v)
  {
  }

  lemma NewCasesLegal(v: View)
    requires v.c0.NewLike?
    ensures Legal(NewCases(v), v)
  {
  }

  lemma OperatorCasesLegal(v: View)
    requires v.c0.OperatorLike?
    ensures Legal(OperatorCases(v), v)
  {
  }

  lemma CatchCasesLegal(v: View)
    requires v.c0.CatchLike?
    ensures Legal(CatchCases(v), v)
  {
  }

  lemma BaseCasesLegal(v: View)
    requires v.c0.Base?
    ensures Legal(BaseCases(v), v)
  {
  }

  lemma RawRparCasesLegal(v: View)
    requires v.c0.RawRpar?
    ensures Legal(RawRparCases(v), v)
  {
  }

  lemma RawUnorbinCasesLegal(v: View)
    requires v.c0.RawUnorbin?
    ensures Legal(RawUnorbinCases(v), v)
  {
  }

  lemma ConstCasesLegal(v: View)
    requires v.c0.ConstLike?
    ensures Legal(ConstCases(v), v)
  {
  }

  lemma RawIntCasesLegal(v: View)
    requires v.c0.RawInt?
    ensures Legal(RawIntCases(v), v)
  {
  }

  lemma CaseOfLegal(v: View)
    ensures Legal(CaseOf(v), v)
  {
    match v.c0
    case Exp => ExpCasesLegal(v);
    case Lpar => LparCasesLegal(v);
    case Question => QuestionCasesLegal(v);
    case Unop => UnopCasesLegal(v);
    case Unorbinop => UnorbinopCasesLegal(v);
    case Binop => BinopCasesLegal(v);
    case Cast => CastCasesLegal(v);
    case SizeofLike => SizeofCasesLegal(v);
    case IntLike => IntCasesLegal(v);
    case DeclHead => DeclHeadCasesLegal(v);
    case Decl => DeclCasesLegal(v);
    case TypedefLike => TypedefCasesLegal(v);
    case StructLike => StructCasesLegal(v);
    case StructHead => StructHeadCasesLegal(v);
    case FnDecl => FnDeclCasesLegal(v);
    case Function => FunctionCasesLegal(v);
    case Lbrace => LbraceCasesLegal(v);
    case DoLike => DoCasesLegal(v);
    case IfLike => IfCasesLegal(v);
    case ForLike => ForCasesLegal(v);
    case ElseLike => ElseCasesLegal(v);
    case ElseHead => ElseHeadCasesLegal(v);
    case IfClause => IfClauseCasesLegal(v);
    case IfHead => IfHeadCasesLegal(v);
    case CaseLike => CaseCasesLegal(v);
    case Tag => TagCasesLegal(v);
    case Stmt => StmtCasesLegal(v);
    case Semi => SemiCasesLegal(v);
    case Lproc => LprocCasesLegal(v);
    case SectionScrap => SectionCasesLegal(v);
    case Insert => InsertCasesLegal(v);
    case Prelangle => PrelangleCasesLegal(v);
    case Prerangle => PrerangleCasesLegal(v);
    case Langle => LangleCasesLegal(v);
    case PublicLike => PublicCasesLegal(v);
    case Colcol => ColcolCasesLegal(v);
    case NewLike => NewCasesLegal(v);
    case OperatorLike => OperatorCasesLegal(v);
    case CatchLike => CatchCasesLegal(v);
    case Base => BaseCasesLegal(v);
    case RawRpar => RawRparCasesLegal(v);
    case RawUnorbin => RawUnorbinCasesLegal(v);
    case ConstLike => ConstCasesLegal(v);
    case RawInt => RawIntCasesLegal(v);
    case _ =>
  }

  /** Whatever the parser sees -- a scrap at `pp`, padding only after the last scrap -- the production it applies keeps
      to the rules. */
  lemma ProductionLegal(v: View)
    requires !v.c0.Zero?
    requires v.c1.Zero? ==> v.c2.Zero?
    requires v.c2.Zero? ==> v.c3.Zero?
    ensures Legal(Production(v), v)
  {
    CaseOfLegal(v);
  }

  /** Two scraps make one of category `cat`: a scrap of that category takes in an insert after it or before it. */
  predicate Absorbs(v: View, at: nat, k: nat, cat: Cat) {
    k == 2 && ((v.At(at) == cat && v.At(at + 1).Insert?) || (v.At(at).Insert? && v.At(at + 1) == cat))
  }

  /** An end_arg scrap comes only out of a scrap of the same category, and a prelangle or prerangle scrap only out of
      such a scrap and an insert. */
  predicate Inherits(a: Action, v: View) {
    match a
    case NoMatch => true
    case Relabel(_, cat, _, _) => !cat.EndArg? && !cat.Prelangle? && !cat.Prerangle?
    case Reduce(at, k, cat, _, _, _, _, _) =>
      && (cat.EndArg? ==> exists i :: at <= i < at + k && v.At(i).EndArg?)
      && (cat.Prelangle? || cat.Prerangle? ==> Absorbs(v, at, k, cat))
  }

  predicate CaseInFirstHalf(c: Cat) {
    match c
    case Exp | Lpar | Question | Unop | Unorbinop | Binop | Cast | SizeofLike | IntLike | DeclHead | Decl | TypedefLike
       | StructLike | StructHead | FnDecl | Function | Lbrace | DoLike | IfLike | ForLike | ElseLike | ElseHead => true
    case _ => false
  }

  lemma FirstHalfInherits(v: View)
    requires CaseInFirstHalf(v.c0)
    ensures Inherits(CaseOf(v), v)
  {
    hide KidRun, IndentedClause, BracedClause,
         IfClauseCases, IfHeadCases, CaseCases, TagCases, StmtCases, SemiCases, LprocCases, SectionCases,
         InsertCases, PrelangleCases, PrerangleCases, LangleCases, PublicCases, ColcolCases, NewCases,
         OperatorCases, CatchCases, BaseCases, RawRparCases, RawUnorbinCases, ConstCases, RawIntCases;
  }

  lemma SecondHalfInherits(v: View)
    requires !CaseInFirstHalf(v.c0)
    ensures Inherits(CaseOf(v), v)
  {
    hide KidRun, TwoPartInsert,
         ExpCases, LparCases, QuestionCases, UnopCases, UnorbinopCases, BinopCases, CastCases, SizeofCases,
         IntCases, DeclHeadCases, DeclCases, TypedefCases, StructCases, StructHeadCases, FnDeclCases,
         FunctionCases, LbraceCases, DoCases, IfCases, ForCases, ElseCases, ElseHeadCases;
    var a := CaseOf(v);
    if v.c0.Insert? && a.Reduce? {
      assert a.at == 0 && a.k == 2 && a.cat == v.At(1);
    }
  }

  lemma CaseOfInherits(v: View)
    ensures Inherits(CaseOf(v), v)
  {
    hide CaseOf, Inherits;
    if CaseInFirstHalf(v.c0) {
      FirstHalfInherits(v);
    } else {
      SecondHalfInherits(v);
    }
  }

  lemma ProductionInherits(v: View)
    ensures Inherits(Production(v), v)
  {
    CaseOfInherits(v);
    var a := Production(v);
    if a.Reduce? {
      assert v.At(0) == v.c0 && v.At(1) == v.c1 && v.At(2) == v.c2;
    }
  }
}
