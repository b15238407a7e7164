/** The table of productions that the documentation of CWEAVE gives, and where the program departs from it. */
module Grammar {
  import opened Scraps
  import opened Productions

  /** What a translation is made of: the translations of scraps, and symbols. */
  datatype Part = K(i: nat) | S(sym: Sym)

  /** A right-hand side: the `k` scraps from `at` on become one of category `cat` with this translation; the others
      stay. */
  datatype Rule = Rule(at: nat, k: nat, cat: Cat, parts: seq<Part>)

  function Joined(at: nat, k: nat): seq<Part>
    decreases k
  {
    if k == 0 then [] else [K(at)] + Joined(at + 1, k - 1)
  }

  /** Production 0 moves an insert into the scrap before it, when it is among the four scraps that are seen. */
  function Absorber(v: View): nat {
    if v.c1.Insert? then 0 else if v.c2.Insert? then 1 else 2
  }

  /** The left-hand sides of the productions for expressions, with the notes. */
  predicate ExpressionLeft(n: nat, v: View) {
    match n
    case 1 => v.c0.Exp? && (v.c1.Lbrace? || v.c1.IntLike? || v.c1.Decl?)
    case 2 => v.c0.Exp? && v.c1.Unop?
    case 3 => v.c0.Exp? && (v.c1.Binop? || v.c1.Unorbinop?) && v.c2.Exp?
    case 4 => v.c0.Exp? && v.c1.Comma? && v.c2.Exp?
    case 5 => v.c0.Exp? && (v.c1.Exp? || v.c1.Cast?)
    case 6 => v.c0.Exp? && v.c1.Semi?
    case 7 => v.c0.Exp? && v.c1.Colon?
    case 8 => v.c0.Exp? && v.c1.Base? && v.c2.IntLike? && v.c3.Comma?
    case 9 => v.c0.Exp? && v.c1.Base? && v.c2.IntLike? && v.c3.Lbrace?
    case 10 => v.c0.Exp? && v.c1.Rbrace?
    case 11 => v.c0.Lpar? && (v.c1.Exp? || v.c1.Unorbinop?) && v.c2.Rpar?
    case 12 => v.c0.Lpar? && v.c1.Rpar?
    case 13 => v.c0.Lpar? && (v.c1.DeclHead? || v.c1.IntLike?) && v.c2.Rpar?
    case 14 => v.c0.Lpar? && (v.c1.DeclHead? || v.c1.IntLike? || v.c1.Exp?) && v.c2.Comma?
    case 15 => v.c0.Lpar? && (v.c1.Stmt? || v.c1.Decl?)
    case 16 => v.c0.Question? && v.c1.Exp? && v.c2.Colon?
    case 17 => v.c0.Unop? && (v.c1.Exp? || v.c1.IntLike?)
    case 18 => v.c0.Unorbinop? && (v.c1.Exp? || v.c1.IntLike?)
    case 19 => v.c0.Unorbinop? && v.c1.Binop?
    case 20 => v.c0.Binop? && v.c1.Binop?
    case 21 => v.c0.Cast? && v.c1.Exp?
    case 22 => v.c0.Cast? && v.c1.Semi?
    case 23 => v.c0.SizeofLike? && v.c1.Cast?
    case 24 => v.c0.SizeofLike? && v.c1.Exp?
    case _ => false
  }

  /** Their right-hand sides. */
  function ExpressionRight(n: nat, v: View): Rule {
    match n
    case 1 => Rule(0, 1, FnDecl, [K(0), S(Indent), S(Indent)])
    case 2 => Rule(0, 2, Exp, Joined(0, 2))
    case 3 => Rule(0, 3, Exp, Joined(0, 3))
    case 4 => Rule(0, 3, Exp, [K(0), K(1), S(Opt), S(Nine), K(2)])
    case 5 => Rule(0, 2, Exp, Joined(0, 2))
    case 6 => Rule(0, 2, Stmt, Joined(0, 2))
    case 7 => Rule(0, 2, Tag, Joined(0, 2))
    case 8 => Rule(0, 4, Base, [K(1), S(Blank), K(2), K(3), S(Opt), S(Nine)])
    case 9 => Rule(0, 3, Exp, [K(0), S(Blank), K(1), S(Blank), K(2)])
    case 10 => Rule(0, 1, Stmt, Joined(0, 1))
    case 11 => Rule(0, 3, Exp, Joined(0, 3))
    case 12 => Rule(0, 2, Exp, [K(0), S(Backslash), S(CommaSign), K(1)])
    case 13 => Rule(0, 3, Cast, Joined(0, 3))
    case 14 => Rule(0, 3, Lpar, [K(0), K(1), K(2), S(Opt), S(Nine)])
    case 15 => Rule(0, 2, Lpar, [K(0), K(1), S(Blank)])
    case 16 => Rule(0, 3, Binop, Joined(0, 3))
    case 17 => Rule(0, 2, v.c1, Joined(0, 2))
    case 18 => Rule(0, 2, v.c1, [S(BraceL), K(0), S(BraceR), K(1)])
    case 19 => Rule(0, 2, Binop, [S(MathRel), K(0), S(BraceL), K(1), S(BraceR), S(BraceR)])
    case 20 => Rule(0, 2, Binop, [S(MathRel), S(BraceL), K(0), S(BraceR), S(BraceL), K(1), S(BraceR), S(BraceR)])
    case 21 => Rule(0, 2, Exp, [K(0), S(Blank), K(1)])
    case 22 => Rule(0, 1, Exp, Joined(0, 1))
    case 23 => Rule(0, 2, Exp, Joined(0, 2))
    case 24 => Rule(0, 2, Exp, [K(0), S(Blank), K(1)])
    case _ => Rule(0, 0, Zero, [])
  }

  /** The left-hand sides of the productions for declarations, with the notes. */
  predicate DeclarationLeft(n: nat, v: View) {
    match n
    case 25 => v.c0.IntLike? && (v.c1.IntLike? || v.c1.StructLike?)
    case 26 => v.c0.IntLike? && v.c1.Exp? && (v.c2.RawInt? || v.c2.StructLike?)
    case 27 => v.c0.IntLike? && (v.c1.Exp? || v.c1.Unorbinop? || v.c1.Semi?)
    case 28 => v.c0.IntLike? && v.c1.Colon?
    case 29 => v.c0.IntLike? && v.c1.Prelangle?
    case 30 => v.c0.IntLike? && v.c1.Colcol? && (v.c2.Exp? || v.c2.IntLike?)
    case 31 => v.c0.IntLike? && v.c1.Cast? && v.c2.Lbrace?
    case 32 => v.c0.IntLike? && v.c1.Cast?
    case 33 => v.c0.DeclHead? && v.c1.Comma?
    case 34 => v.c0.DeclHead? && v.c1.Unorbinop?
    case 35 => v.c0.DeclHead? && v.c1.Exp? && !v.c2.Lpar? && !v.c2.Exp?
    case 36 => v.c0.DeclHead? && (v.c1.Binop? || v.c1.Colon?) && v.c2.Exp? && (v.c3.Comma? || v.c3.Semi? || v.c3.Rpar?)
    case 37 => v.c0.DeclHead? && v.c1.Cast?
    case 38 => v.c0.DeclHead? && (v.c1.Lbrace? || v.c1.Decl? || (v.c1.IntLike? && !v.c2.Colcol?))
    case 39 => v.c0.DeclHead? && v.c1.Semi?
    case 40 => v.c0.Decl? && v.c1.Decl?
    case 41 => v.c0.Decl? && (v.c1.Stmt? || v.c1.Function?)
    case 42 => v.c0.TypedefLike? && v.c1.DeclHead? && (v.c2.IntLike? || (v.c2.Exp? && !v.c3.Lpar? && !v.c3.Exp?))
    case 43 => v.c0.TypedefLike? && v.c1.DeclHead? && v.c2.Semi?
    case 44 => v.c0.StructLike? && v.c1.Lbrace?
    case 45 => v.c0.StructLike? && (v.c1.Exp? || v.c1.IntLike?) && v.c2.Semi?
    case 46 => v.c0.StructLike? && (v.c1.Exp? || v.c1.IntLike?) && v.c2.Lbrace?
    case 47 => v.c0.StructLike? && (v.c1.Exp? || v.c1.IntLike?) && v.c2.Colon?
    case 48 => v.c0.StructLike? && (v.c1.Exp? || v.c1.IntLike?) && !v.c2.Base?
    case 49 => v.c0.StructHead? && (v.c1.Decl? || v.c1.Stmt? || v.c1.Function?) && v.c2.Rbrace?
    case 50 => v.c0.StructHead? && v.c1.Rbrace?
    case 51 => v.c0.FnDecl? && v.c1.Decl?
    case 52 => v.c0.FnDecl? && v.c1.Stmt?
    case 53 => v.c0.Function? && (v.c1.Stmt? || v.c1.Decl? || v.c1.Function?)
    case _ => false
  }

  /** Their right-hand sides. */
  function DeclarationRight(n: nat, v: View): Rule {
    match n
    case 25 => Rule(0, 2, v.c1, [K(0), S(Blank), K(1)])
    case 26 => Rule(0, 2, IntLike, Joined(0, 2))
    case 27 => Rule(0, 1, DeclHead, if v.c1.Semi? then [K(0)] else [K(0), S(Blank)])
    case 28 => Rule(0, 1, DeclHead, [K(0), S(Blank)])
    case 29 => Rule(1, 1, Langle, Joined(1, 1))
    case 30 => Rule(0, 3, v.c2, Joined(0, 3))
    case 31 => Rule(0, 2, FnDecl, [K(0), K(1), S(Indent), S(Indent)])
    case 32 => Rule(0, 2, IntLike, Joined(0, 2))
    case 33 => Rule(0, 2, DeclHead, [K(0), K(1), S(Blank)])
    case 34 => Rule(0, 2, DeclHead, [K(0), S(BraceL), K(1), S(BraceR)])
    case 35 => Rule(0, 2, DeclHead, Joined(0, 2))
    case 36 => Rule(0, 3, DeclHead, Joined(0, 3))
    case 37 => Rule(0, 2, DeclHead, Joined(0, 2))
    case 38 => Rule(0, 1, FnDecl, [K(0), S(Indent), S(Indent)])
    case 39 => Rule(0, 2, Decl, Joined(0, 2))
    case 40 => Rule(0, 2, Decl, [K(0), S(Force), K(1)])
    case 41 => Rule(0, 2, v.c1, [K(0), S(BigForce), K(1)])
    case 42 => Rule(1, 2, DeclHead, Joined(1, 2))
    case 43 => Rule(0, 3, Decl, [K(0), S(Blank), K(1)])
    case 44 => Rule(0, 2, StructHead, [K(0), S(Blank), K(1)])
    case 45 => Rule(0, 2, DeclHead, [K(0), S(Blank), K(1)])
    case 46 => Rule(0, 3, StructHead, [K(0), S(Blank), K(1), S(Blank), K(2)])
    case 47 => Rule(2, 1, Base, Joined(2, 1))
    case 48 => Rule(0, 2, IntLike, [K(0), S(Blank), K(1)])
    case 49 => Rule(0, 3, IntLike, [K(0), S(Indent), S(Force), K(1), S(Outdent), S(Force), K(2)])
    case 50 => Rule(0, 2, IntLike, [K(0), S(Backslash), S(CommaSign), K(1)])
    case 51 => Rule(0, 2, FnDecl, [K(0), S(Force), K(1)])
    case 52 => Rule(0, 2, Function, [K(0), S(Outdent), S(Outdent), S(Force), K(1)])
    case 53 => Rule(0, 2, v.c1, [K(0), S(BigForce), K(1)])
    case _ => Rule(0, 0, Zero, [])
  }

  /** The left-hand sides of the productions for statements, with the notes. */
  predicate StatementLeft(n: nat, v: View) {
    match n
    case 54 => v.c0.Lbrace? && v.c1.Rbrace?
    case 55 => v.c0.Lbrace? && (v.c1.Stmt? || v.c1.Decl? || v.c1.Function?) && v.c2.Rbrace?
    case 56 => v.c0.Lbrace? && v.c1.Exp? && (v.c2.Rbrace? || (v.c2.Comma? && v.c3.Rbrace?))
    case 57 => v.c0.IfLike? && v.c1.Exp?
    case 58 => v.c0.ForLike? && v.c1.Exp?
    case 59 => v.c0.ElseLike? && v.c1.Lbrace?
    case 60 => v.c0.ElseLike? && v.c1.Stmt?
    case 61 => v.c0.ElseHead? && (v.c1.Stmt? || v.c1.Exp?)
    case 62 => v.c0.IfClause? && v.c1.Lbrace?
    case 63 => v.c0.IfClause? && v.c1.Stmt? && v.c2.ElseLike? && v.c3.IfLike?
    case 64 => v.c0.IfClause? && v.c1.Stmt? && v.c2.ElseLike?
    case 65 => v.c0.IfClause? && v.c1.Stmt?
    case 66 => v.c0.IfHead? && (v.c1.Stmt? || v.c1.Exp?) && v.c2.ElseLike? && v.c3.IfLike?
    case 67 => v.c0.IfHead? && (v.c1.Stmt? || v.c1.Exp?) && v.c2.ElseLike?
    case 68 => v.c0.IfHead? && (v.c1.Stmt? || v.c1.Exp?)
    case 69 => v.c0.DoLike? && v.c1.Stmt? && v.c2.ElseLike? && v.c3.Semi?
    case 70 => v.c0.CaseLike? && v.c1.Semi?
    case 71 => v.c0.CaseLike? && v.c1.Colon?
    case 72 => v.c0.CaseLike? && v.c1.Exp? && v.c2.Semi?
    case 73 => v.c0.CaseLike? && v.c1.Exp? && v.c2.Colon?
    case 74 => v.c0.Tag? && v.c1.Tag?
    case 75 => v.c0.Tag? && (v.c1.Stmt? || v.c1.Decl? || v.c1.Function?)
    case 76 => v.c0.Stmt? && (v.c1.Stmt? || v.c1.Decl? || v.c1.Function?)
    case _ => false
  }

  /** Their right-hand sides. */
  function StatementRight(n: nat, v: View): Rule {
    match n
    case 54 => Rule(0, 2, Stmt, [K(0), S(Backslash), S(CommaSign), K(1)])
    case 55 => Rule(0, 3, Stmt,
                    [S(Force), K(0), S(Indent), S(Force), K(1), S(Force), S(Backup), K(2), S(Outdent), S(Force)])
    case 56 => Rule(0, if v.c2.Comma? then 4 else 3, Exp, Joined(0, if v.c2.Comma? then 4 else 3))
    case 57 => Rule(0, 2, IfClause, [K(0), S(Blank), K(1)])
    case 58 => Rule(0, 2, ElseLike, [K(0), S(Blank), K(1)])
    case 59 => Rule(0, 1, ElseHead, Joined(0, 1))
    case 60 => Rule(0, 2, Stmt, [S(Force), K(0), S(Indent), S(BreakSpace), K(1), S(Outdent), S(Force)])
    case 61 => Rule(0, 2, Stmt, [S(Force), K(0), S(BreakSpace), S(Noop), S(Cancel), K(1), S(BreakSpace)])
    case 62 => Rule(0, 1, IfHead, Joined(0, 1))
    case 63 => Rule(0, 4, IfLike,
                    [S(Force), K(0), S(Indent), S(BreakSpace), K(1), S(Outdent), S(Force), K(2), S(Blank), K(3)])
    case 64 => Rule(0, 3, ElseLike, [S(Force), K(0), S(Indent), S(BreakSpace), K(1), S(Outdent), S(Force), K(2)])
    case 65 => Rule(0, 1, ElseLike, Joined(0, 1))
    case 66 => Rule(0, 4, IfLike,
                    [S(Force), K(0), S(BreakSpace), S(Noop), S(Cancel), K(1), S(Force), K(2), S(Blank), K(3)])
    case 67 => Rule(0, 3, ElseLike, [S(Force), K(0), S(BreakSpace), S(Noop), S(Cancel), K(1), S(Force), K(2)])
    case 68 => Rule(0, 1, ElseHead, Joined(0, 1))
    case 69 => Rule(0, 4, Stmt,
                    [K(0), S(BreakSpace), S(Noop), S(Cancel), K(1), S(Cancel), S(Noop), S(BreakSpace), K(2), K(3)])
    case 70 => Rule(0, 2, Stmt, Joined(0, 2))
    case 71 => Rule(0, 2, Tag, Joined(0, 2))
    case 72 => Rule(0, 3, Stmt, [K(0), S(Blank), K(1), K(2)])
    case 73 => Rule(0, 3, Tag, [K(0), S(Blank), K(1), K(2)])
    case 74 => Rule(0, 2, Tag, [K(0), S(BreakSpace), K(1)])
    case 75 => Rule(0, 2, v.c1, [S(Force), S(Backup), K(0), S(BreakSpace), K(1)])
    case 76 => Rule(0, 2, v.c1,
                    [K(0), S(if !v.c1.Stmt? then BigForce else if v.forceLines then Force else BreakSpace), K(1)])
    case _ => Rule(0, 0, Zero, [])
  }

  /** The left-hand sides of the productions for all the rest, with the notes. */
  predicate OtherLeft(n: nat, v: View) {
    match n
    case 77 => v.c0.Semi?
    case 78 => v.c0.Lproc? && (v.c1.IfLike? || v.c1.ElseLike? || v.c1.DefineLike?)
    case 79 => v.c0.Lproc? && v.c1.Rproc?
    case 80 => v.c0.Lproc?
      && (if v.c2.Rproc? then v.c1.Exp? || v.c1.Function? else v.c1.Exp? && v.c2.Exp? && v.c3.Rproc?)
    case 81 => v.c0.SectionScrap? && v.c1.Semi?
    case 82 => v.c0.SectionScrap?
    case 83 => v.c0.Insert? && !v.c1.Zero?
    case 84 => v.c0.Prelangle?
    case 85 => v.c0.Prerangle?
    case 86 => v.c0.Langle? && v.c1.Exp? && v.c2.Prerangle?
    case 87 => v.c0.Langle? && v.c1.Prerangle?
    case 88 => v.c0.Langle? && (v.c1.DeclHead? || v.c1.IntLike?) && v.c2.Prerangle?
    case 89 => v.c0.Langle? && (v.c1.DeclHead? || v.c1.IntLike?) && v.c2.Comma?
    case 90 => v.c0.PublicLike? && v.c1.Colon?
    case 91 => v.c0.PublicLike?
    case 92 => v.c0.Colcol? && (v.c1.Exp? || v.c1.IntLike?)
    case 93 => v.c0.NewLike? && (v.c1.Exp? || (v.c1.RawInt? && !v.c2.Prelangle? && !v.c2.Langle?))
    case 94 => v.c0.NewLike? && (v.c1.RawUnorbin? || v.c1.Colcol?)
    case 95 => v.c0.NewLike? && v.c1.Cast?
    case 96 => v.c0.NewLike? && !v.c1.Lpar? && !v.c1.RawInt? && !v.c1.StructLike?
    case 97 => v.c0.OperatorLike? && (v.c1.Binop? || v.c1.Unop? || v.c1.Unorbinop?) && !v.c2.Binop?
    case 98 => v.c0.OperatorLike? && (v.c1.NewLike? || v.c1.SizeofLike?)
    case 99 => v.c0.OperatorLike?
    case 100 => v.c0.CatchLike? && (v.c1.Cast? || v.c1.Exp?)
    case 101 => v.c0.Base? && v.c1.PublicLike? && v.c2.Exp? && v.c3.Comma?
    case 102 => v.c0.Base? && v.c1.PublicLike? && v.c2.Exp?
    case 103 => v.c0.RawRpar? && v.c1.ConstLike?
      && (v.c2.Semi? || v.c2.Lbrace? || v.c2.Comma? || v.c2.Binop? || v.c2.ConstLike?)
    case 104 => v.c0.RawRpar?
    case 105 => v.c0.RawUnorbin? && v.c1.ConstLike?
    case 106 => v.c0.RawUnorbin?
    case 107 => v.c0.ConstLike?
    case 108 => v.c0.RawInt? && v.c1.Lpar?
    case 109 => v.c0.RawInt?
    case 110 => v.c0.BeginArg? && v.c1.EndArg?
    case 111 => v.c1.EndArg?
    case _ => false
  }

  /** Their right-hand sides. */
  function OtherRight(n: nat, v: View): Rule {
    match n
    case 77 => Rule(0, 1, Stmt, [S(Blank), K(0)])
    case 78 => Rule(0, 2, Lproc, Joined(0, 2))
    case 79 => Rule(0, 2, Insert, Joined(0, 2))
    case 80 => Rule(0, if v.c2.Rproc? then 3 else 4, Insert, [K(0), S(Blank), K(1)] + if v.c2.Rproc? then []
                    else [S(Blank), S(Backslash), S(Five), K(2)])
    case 81 => Rule(0, 2, Stmt, [K(0), K(1), S(Force)])
    case 82 => Rule(0, 1, Exp, Joined(0, 1))
    case 83 => Rule(0, 2, v.c1, Joined(0, 2))
    case 84 => Rule(0, 1, Binop, [S(LessSign)])
    case 85 => Rule(0, 1, Binop, [S(GreaterSign)])
    case 86 => Rule(0, 3, Cast, Joined(0, 3))
    case 87 => Rule(0, 2, Cast, [K(0), S(Backslash), S(CommaSign), K(1)])
    case 88 => Rule(0, 3, Cast, Joined(0, 3))
    case 89 => Rule(0, 3, Langle, [K(0), K(1), K(2), S(Opt), S(Nine)])
    case 90 => Rule(0, 2, Tag, Joined(0, 2))
    case 91 => Rule(0, 1, IntLike, Joined(0, 1))
    case 92 => Rule(0, 2, v.c1, Joined(0, 2))
    case 93 => Rule(0, 2, NewLike, [K(0), S(Blank), K(1)])
    case 94 => Rule(0, 2, NewLike, Joined(0, 2))
    case 95 => Rule(0, 2, Exp, Joined(0, 2))
    case 96 => Rule(0, 1, Exp, Joined(0, 1))
    case 97 => Rule(0, 2, Exp, [K(0), S(BraceL), K(1), S(BraceR)])
    case 98 => Rule(0, 2, Exp, [K(0), S(Blank), K(1)])
    case 99 => Rule(0, 1, NewLike, Joined(0, 1))
    case 100 => Rule(0, 2, FnDecl, [K(0), K(1), S(Indent), S(Indent)])
    case 101 => Rule(0, 4, Base, [K(0), K(1), S(Blank), K(2), K(3)])
    case 102 => Rule(1, 2, IntLike, [K(1), S(Blank), K(2)])
    case 103 => Rule(0, 2, RawRpar, [K(0), S(Blank), K(1)])
    case 104 => Rule(0, 1, Rpar, Joined(0, 1))
    case 105 => Rule(0, 2, RawUnorbin, [K(0), K(1), S(Backslash), S(Blank)])
    case 106 => Rule(0, 1, Unorbinop, Joined(0, 1))
    case 107 => Rule(0, 1, IntLike, Joined(0, 1))
    case 108 => Rule(0, 1, Exp, Joined(0, 1))
    case 109 => Rule(0, 1, IntLike, Joined(0, 1))
    case 110 => Rule(0, 2, Exp, Joined(0, 2))
    case 111 => Rule(0, 2, EndArg, Joined(0, 2))
    case _ => Rule(0, 0, Zero, [])
  }

  predicate LeftSide(n: nat, v: View) {
    if n == 0 then v.c1.Insert? || v.c2.Insert? || v.c3.Insert?
    else if n < 25 then ExpressionLeft(n, v)
    else if n < 54 then DeclarationLeft(n, v)
    else if n < 77 then StatementLeft(n, v)
    else OtherLeft(n, v)
  }

  function RightSide(n: nat, v: View): Rule {
    if n == 0 then Rule(Absorber(v), 2, v.At(Absorber(v)), Joined(Absorber(v), 2))
    else if n < 25 then ExpressionRight(n, v)
    else if n < 54 then DeclarationRight(n, v)
    else if n < 77 then StatementRight(n, v)
    else OtherRight(n, v)
  }

  /** Two asterisks in the table: the scrap whose first identifier becomes a reserved word. */
  function Starred(n: nat): Option<nat> {
    match n
    case 42 => Some(2)
    case 45 => Some(1)
    case 46 => Some(1)
    case _ => None
  }

  function PartsOf(r: Recipe): seq<Part> {
    match r
    case End => []
    case Kid(i, rest) => [K(i)] + PartsOf(rest)
    case Big(s, rest) => [S(s)] + PartsOf(rest)
    case Put(s, rest) => [S(s)] + PartsOf(rest)
  }

  /** What the program does where it departs from the table: the exp before a base stays; the semicolon of a typedef
      is kept; a statement in braces after an else ends with a forced line break; and an insert begins with the mark
      `inserted` and ends with the end of the preprocessor line. */
  function Instead(n: nat, v: View): Rule {
    match n
    case 8 => Rule(1, 3, Base, [K(1), S(Blank), K(2), K(3), S(Opt), S(Nine)])
    case 43 => Rule(0, 3, Decl, [K(0), S(Blank), K(1), K(2)])
    case 61 => Rule(0, 2, Stmt, [S(Force), K(0), S(BreakSpace), S(Noop), S(Cancel), K(1), S(Force)])
    case 79 => Rule(0, 2, Insert, [S(Inserted), K(0), K(1)])
    case 80 =>
      if v.c2.Rproc? then Rule(0, 3, Insert, [S(Inserted), K(0), S(Blank), K(1), K(2)])
      else
        Rule(0, 4, Insert, [S(Inserted), K(0), S(Blank), K(1), S(Blank), S(Backslash), S(Five), K(2), K(3)])
    case _ => RightSide(n, v)
  }

  predicate Departs(n: nat) {
    n == 8 || n == 43 || n == 61 || n == 79 || n == 80
  }

  /** What an action makes of the scraps. */
  function Made(a: Action): Rule
    requires !a.NoMatch?
  {
    match a
    case Relabel(at, cat, _, _) => Rule(at, 1, cat, [K(at)])
    case Reduce(at, k, cat, _, _, _, _, recipe) => Rule(at, k, cat, PartsOf(recipe))
  }

  /** The action is the production of the table that has its number, or what there is instead. */
  predicate Agrees(a: Action, v: View) {
    !a.NoMatch? ==>
      && LeftSide(a.n, v) && Made(a) == Instead(a.n, v) && (Made(a) == RightSide(a.n, v) <==> !Departs(a.n))
      && Starred(a.n) == if a.Reduce? then a.reserve else None
  }

  lemma ExpBaseDocumented(v: View)
    requires v.c0.Exp? && v.c1.Base?
    ensures Agrees(ExpBaseCases(v), v)
  {
    hide DeclarationLeft, DeclarationRight, StatementLeft, StatementRight, OtherLeft, OtherRight;
  }

  lemma ExpDocumented(v: View)
    requires v.c0.Exp?
    ensures Agrees(ExpCases(v), v)
  {
    hide DeclarationLeft, DeclarationRight, StatementLeft, StatementRight, OtherLeft, OtherRight, ExpBaseCases;
    if v.c1.Base? {
      ExpBaseDocumented(v);
    }
  }

  lemma LparDocumented(v: View)
    requires v.c0.Lpar?
    ensures Agrees(LparCases(v), v)
  {
    hide DeclarationLeft, DeclarationRight, StatementLeft, StatementRight, OtherLeft, OtherRight;
  }

  lemma QuestionDocumented(v: View)
    requires v.c0.Question?
    ensures Agrees(QuestionCases(v), v)
  {
    hide DeclarationLeft, DeclarationRight, StatementLeft, StatementRight, OtherLeft, OtherRight;
  }

  lemma UnopDocumented(v: View)
    requires v.c0.Unop?
    ensures Agrees(UnopCases(v), v)
  {
    hide DeclarationLeft, DeclarationRight, StatementLeft, StatementRight, OtherLeft, OtherRight;
  }

  lemma UnorbinopDocumented(v: View)
    requires v.c0.Unorbinop?
    ensures Agrees(UnorbinopCases(v), v)
  {
    hide DeclarationLeft, DeclarationRight, StatementLeft, StatementRight, OtherLeft, OtherRight;
  }

  lemma BinopDocumented(v: View)
    requires v.c0.Binop?
    ensures Agrees(BinopCases(v), v)
  {
    hide DeclarationLeft, DeclarationRight, StatementLeft, StatementRight, OtherLeft, OtherRight;
  }

  lemma CastDocumented(v: View)
    requires v.c0.Cast?
    ensures Agrees(CastCases(v), v)
  {
    hide DeclarationLeft, DeclarationRight, StatementLeft, StatementRight, OtherLeft, OtherRight;
  }

  lemma SizeofDocumented(v: View)
    requires v.c0.SizeofLike?
    ensures Agrees(SizeofCases(v), v)
  {
    hide DeclarationLeft, DeclarationRight, StatementLeft, StatementRight, OtherLeft, OtherRight;
  }

  lemma IntCastDocumented(v: View)
    requires v.c0.IntLike? && v.c1.Cast?
    ensures Agrees(IntCastCases(v), v)
  {
    hide ExpressionLeft, ExpressionRight, StatementLeft, StatementRight, OtherLeft, OtherRight;
  }

  lemma IntDocumented(v: View)
    requires v.c0.IntLike?
    ensures Agrees(IntCases(v), v)
  {
    hide ExpressionLeft, ExpressionRight, StatementLeft, StatementRight, OtherLeft, OtherRight, IntCastCases;
    if v.c1.Cast? {
      IntCastDocumented(v);
    }
  }

  lemma DeclHeadDocumented(v: View)
    requires v.c0.DeclHead?
    ensures Agrees(DeclHeadCases(v), v)
  {
    hide ExpressionLeft, ExpressionRight, StatementLeft, StatementRight, OtherLeft, OtherRight;
  }

  lemma DeclDocumented(v: View)
    requires v.c0.Decl?
    ensures Agrees(DeclCases(v), v)
  {
    hide ExpressionLeft, ExpressionRight, StatementLeft, StatementRight, OtherLeft, OtherRight;
  }

  lemma TypedefDocumented(v: View)
    requires v.c0.TypedefLike?
    ensures Agrees(TypedefCases(v), v)
  {
    hide ExpressionLeft, ExpressionRight, StatementLeft, StatementRight, OtherLeft, OtherRight;
  }

  lemma StructDocumented(v: View)
    requires v.c0.StructLike?
    ensures Agrees(StructCases(v), v)
  {
    hide ExpressionLeft, ExpressionRight, StatementLeft, StatementRight, OtherLeft, OtherRight;
  }

  lemma StructHeadDocumented(v: View)
    requires v.c0.StructHead?
    ensures Agrees(StructHeadCases(v), v)
  {
    hide ExpressionLeft, ExpressionRight, StatementLeft, StatementRight, OtherLeft, OtherRight;
  }

  lemma FnDeclDocumented(v: View)
    requires v.c0.FnDecl?
    ensures Agrees(FnDeclCases(v), v)
  {
    hide ExpressionLeft, ExpressionRight, StatementLeft, StatementRight, OtherLeft, OtherRight;
  }

  lemma FunctionDocumented(v: View)
    requires v.c0.Function?
    ensures Agrees(FunctionCases(v), v)
  {
    hide ExpressionLeft, ExpressionRight, StatementLeft, StatementRight, OtherLeft, OtherRight;
  }

  lemma BlockDocumented(v: View)
    requires v.c0.Lbrace? && (v.c1.Stmt? || v.c1.Decl? || v.c1.Function?) && v.c2.Rbrace?
    ensures Agrees(Red(0, 3, Stmt, -1, 55, IndentedBlock()), v)
  {
    hide ExpressionLeft, ExpressionRight, DeclarationLeft, DeclarationRight, OtherLeft, OtherRight;
  }

  lemma LbraceDocumented(v: View)
    requires v.c0.Lbrace?
    ensures Agrees(LbraceCases(v), v)
  {
    hide ExpressionLeft, ExpressionRight, DeclarationLeft, DeclarationRight, OtherLeft, OtherRight, IndentedBlock;
    if (v.c1.Stmt? || v.c1.Decl? || v.c1.Function?) && v.c2.Rbrace? {
      BlockDocumented(v);
    }
  }

  lemma DoDocumented(v: View)
    requires v.c0.DoLike?
    ensures Agrees(DoCases(v), v)
  {
    hide ExpressionLeft, ExpressionRight, DeclarationLeft, DeclarationRight, OtherLeft, OtherRight;
  }

  lemma IfDocumented(v: View)
    requires v.c0.IfLike?
    ensures Agrees(IfCases(v), v)
  {
    hide ExpressionLeft, ExpressionRight, DeclarationLeft, DeclarationRight, OtherLeft, OtherRight;
  }

  lemma ForDocumented(v: View)
    requires v.c0.ForLike?
    ensures Agrees(ForCases(v), v)
  {
    hide ExpressionLeft, ExpressionRight, DeclarationLeft, DeclarationRight, OtherLeft, OtherRight;
  }

  lemma ElseDocumented(v: View)
    requires v.c0.ElseLike?
    ensures Agrees(ElseCases(v), v)
  {
    hide ExpressionLeft, ExpressionRight, DeclarationLeft, DeclarationRight, OtherLeft, OtherRight;
  }

  lemma IfClauseIfDocumented(v: View)
    requires v.c0.IfClause? && v.c1.Stmt? && v.c2.ElseLike? && v.c3.IfLike?
    ensures Agrees(IfClauseElseCases(v), v)
  {
    hide ExpressionLeft, ExpressionRight, DeclarationLeft, DeclarationRight, OtherLeft, OtherRight;
  }

  lemma IfClauseElseDocumented(v: View)
    requires v.c0.IfClause? && v.c1.Stmt? && v.c2.ElseLike?
    ensures Agrees(IfClauseElseCases(v), v)
  {
    hide ExpressionLeft, ExpressionRight, DeclarationLeft, DeclarationRight, OtherLeft, OtherRight;
    if v.c3.IfLike? {
      hide IfClauseElseCases;
      IfClauseIfDocumented(v);
    }
  }

  lemma IfClauseDocumented(v: View)
    requires v.c0.IfClause?
    ensures Agrees(IfClauseCases(v), v)
  {
    hide ExpressionLeft, ExpressionRight, DeclarationLeft, DeclarationRight, OtherLeft, OtherRight, IfClauseElseCases;
    if v.c1.Stmt? && v.c2.ElseLike? {
      IfClauseElseDocumented(v);
    }
  }

  lemma IfHeadIfDocumented(v: View)
    requires v.c0.IfHead? && (v.c1.Stmt? || v.c1.Exp?) && v.c2.ElseLike? && v.c3.IfLike?
    ensures Agrees(IfHeadElseCases(v), v)
  {
    hide ExpressionLeft, ExpressionRight, DeclarationLeft, DeclarationRight, OtherLeft, OtherRight;
  }

  lemma IfHeadElseDocumented(v: View)
    requires v.c0.IfHead? && (v.c1.Stmt? || v.c1.Exp?) && v.c2.ElseLike?
    ensures Agrees(IfHeadElseCases(v), v)
  {
    hide ExpressionLeft, ExpressionRight, DeclarationLeft, DeclarationRight, OtherLeft, OtherRight;
    if v.c3.IfLike? {
      hide IfHeadElseCases;
      IfHeadIfDocumented(v);
    }
  }

  lemma IfHeadDocumented(v: View)
    requires v.c0.IfHead?
    ensures Agrees(IfHeadCases(v), v)
  {
    hide ExpressionLeft, ExpressionRight, DeclarationLeft, DeclarationRight, OtherLeft, OtherRight, IfHeadElseCases;
    if (v.c1.Stmt? || v.c1.Exp?) && v.c2.ElseLike? {
      IfHeadElseDocumented(v);
    }
  }

  lemma ElseHeadDocumented(v: View)
    requires v.c0.ElseHead?
    ensures Agrees(ElseHeadCases(v), v)
  {
    hide ExpressionLeft, ExpressionRight, DeclarationLeft, DeclarationRight, OtherLeft, OtherRight;
    if v.c1.Stmt? || v.c1.Exp? {
      assert Made(ElseHeadCases(v)).parts[6] == S(Force) && RightSide(61, v).parts[6] == S(BreakSpace);
    }
  }

  lemma CaseDocumented(v: View)
    requires v.c0.CaseLike?
    ensures Agrees(CaseCases(v), v)
  {
    hide ExpressionLeft, ExpressionRight, DeclarationLeft, DeclarationRight, OtherLeft, OtherRight;
  }

  lemma StmtDocumented(v: View)
    requires v.c0.Stmt?
    ensures Agrees(StmtCases(v), v)
  {
    hide ExpressionLeft, ExpressionRight, DeclarationLeft, DeclarationRight, OtherLeft, OtherRight;
  }

  lemma TagDocumented(v: View)
    requires v.c0.Tag?
    ensures Agrees(TagCases(v), v)
  {
    hide ExpressionLeft, ExpressionRight, DeclarationLeft, DeclarationRight, OtherLeft, OtherRight;
  }

  lemma SemiDocumented(v: View)
    requires v.c0.Semi?
    ensures Agrees(SemiCases(v), v)
  {
    hide ExpressionLeft, ExpressionRight, DeclarationLeft, DeclarationRight, StatementLeft, StatementRight;
  }

  lemma LprocExpDocumented(v: View)
    requires v.c0.Lproc? && (v.c1.Exp? || v.c1.Function?)
    ensures Agrees(LprocExpCases(v), v)
  {
    hide ExpressionLeft, ExpressionRight, DeclarationLeft, DeclarationRight, StatementLeft, StatementRight;
  }

  lemma LprocDocumented(v: View)
    requires v.c0.Lproc?
    ensures Agrees(LprocCases(v), v)
  {
    hide ExpressionLeft, ExpressionRight, DeclarationLeft, DeclarationRight, StatementLeft, StatementRight,
         LprocExpCases;
    if (v.c1.Exp? || v.c1.Function?) {
      LprocExpDocumented(v);
    }
  }

  lemma SectionDocumented(v: View)
    requires v.c0.SectionScrap?
    ensures Agrees(SectionCases(v), v)
  {
    hide ExpressionLeft, ExpressionRight, DeclarationLeft, DeclarationRight, StatementLeft, StatementRight;
  }

  lemma InsertDocumented(v: View)
    requires v.c0.Insert?
    ensures Agrees(InsertCases(v), v)
  {
    hide ExpressionLeft, ExpressionRight, DeclarationLeft, DeclarationRight, StatementLeft, StatementRight;
  }

  lemma PrelangleDocumented(v: View)
    requires v.c0.Prelangle?
    ensures Agrees(PrelangleCases(v), v)
  {
    hide ExpressionLeft, ExpressionRight, DeclarationLeft, DeclarationRight, StatementLeft, StatementRight;
  }

  lemma PrerangleDocumented(v: View)
    requires v.c0.Prerangle?
    ensures Agrees(PrerangleCases(v), v)
  {
    hide ExpressionLeft, ExpressionRight, DeclarationLeft, DeclarationRight, StatementLeft, StatementRight;
  }

  lemma LangleDocumented(v: View)
    requires v.c0.Langle?
    ensures Agrees(LangleCases(v), v)
  {
    hide ExpressionLeft, ExpressionRight, DeclarationLeft, DeclarationRight, StatementLeft, StatementRight;
  }

  lemma PublicDocumented(v: View)
    requires v.c0.PublicLike?
    ensures Agrees(PublicCases(v), v)
  {
    hide ExpressionLeft, ExpressionRight, DeclarationLeft, DeclarationRight, StatementLeft, StatementRight;
  }

  lemma ColcolDocumented(v: View)
    requires v.c0.Colcol?
    ensures Agrees(ColcolCases(v), v)
  {
    hide ExpressionLeft, ExpressionRight, DeclarationLeft, DeclarationRight, StatementLeft, StatementRight;
  }

  lemma NewDocumented(v: View)
    requires v.c0.NewLike?
    ensures Agrees(NewCases(v), v)
  {
    hide ExpressionLeft, ExpressionRight, DeclarationLeft, DeclarationRight, StatementLeft, StatementRight;
  }

  lemma OperatorDocumented(v: View)
    requires v.c0.OperatorLike?
    ensures Agrees(OperatorCases(v), v)
  {
    hide ExpressionLeft, ExpressionRight, DeclarationLeft, DeclarationRight, StatementLeft, StatementRight;
  }

  lemma CatchDocumented(v: View)
    requires v.c0.CatchLike?
    ensures Agrees(CatchCases(v), v)
  {
    hide ExpressionLeft, ExpressionRight, DeclarationLeft, DeclarationRight, StatementLeft, StatementRight;
  }

  lemma BaseDocumented(v: View)
    requires v.c0.Base?
    ensures Agrees(BaseCases(v), v)
  {
    hide ExpressionLeft, ExpressionRight, DeclarationLeft, DeclarationRight, StatementLeft, StatementRight;
  }

  lemma RawRparDocumented(v: View)
    requires v.c0.RawRpar?
    ensures Agrees(RawRparCases(v), v)
  {
    hide ExpressionLeft, ExpressionRight, DeclarationLeft, DeclarationRight, StatementLeft, StatementRight;
  }

  lemma RawUnorbinDocumented(v: View)
    requires v.c0.RawUnorbin?
    ensures Agrees(RawUnorbinCases(v), v)
  {
    hide ExpressionLeft, ExpressionRight, DeclarationLeft, DeclarationRight, StatementLeft, StatementRight;
  }

  lemma ConstDocumented(v: View)
    requires v.c0.ConstLike?
    ensures Agrees(ConstCases(v), v)
  {
    hide ExpressionLeft, ExpressionRight, DeclarationLeft, DeclarationRight, StatementLeft, StatementRight;
  }

  lemma RawIntDocumented(v: View)
    requires v.c0.RawInt?
    ensures Agrees(RawIntCases(v), v)
  {
    hide ExpressionLeft, ExpressionRight, DeclarationLeft, DeclarationRight, StatementLeft, StatementRight;
  }

  lemma TableAgrees(v: View)
    ensures Agrees(CaseOf(v), v)
  {
    hide Agrees, ExpCases, LparCases, QuestionCases, UnopCases, UnorbinopCases, BinopCases, CastCases, SizeofCases,
         IntCases, DeclHeadCases, DeclCases, TypedefCases, StructCases, StructHeadCases, FnDeclCases, FunctionCases,
           LbraceCases, DoCases, IfCases, ForCases, ElseCases, IfClauseCases, IfHeadCases, ElseHeadCases, CaseCases,
             StmtCases, TagCases, SemiCases, LprocCases, SectionCases, InsertCases, PrelangleCases, PrerangleCases,
               LangleCases, PublicCases, ColcolCases, NewCases, OperatorCases, CatchCases, BaseCases, RawRparCases,
                 RawUnorbinCases, ConstCases, RawIntCases;
    match v.c0
    case Exp => ExpDocumented(v);
    case Lpar => LparDocumented(v);
    case Question => QuestionDocumented(v);
    case Unop => UnopDocumented(v);
    case Unorbinop => UnorbinopDocumented(v);
    case Binop => BinopDocumented(v);
    case Cast => CastDocumented(v);
    case SizeofLike => SizeofDocumented(v);
    case IntLike => IntDocumented(v);
    case DeclHead => DeclHeadDocumented(v);
    case Decl => DeclDocumented(v);
    case TypedefLike => TypedefDocumented(v);
    case StructLike => StructDocumented(v);
    case StructHead => StructHeadDocumented(v);
    case FnDecl => FnDeclDocumented(v);
    case Function => FunctionDocumented(v);
    case Lbrace => LbraceDocumented(v);
    case DoLike => DoDocumented(v);
    case IfLike => IfDocumented(v);
    case ForLike => ForDocumented(v);
    case ElseLike => ElseDocumented(v);
    case IfClause => IfClauseDocumented(v);
    case IfHead => IfHeadDocumented(v);
    case ElseHead => ElseHeadDocumented(v);
    case CaseLike => CaseDocumented(v);
    case Stmt => StmtDocumented(v);
    case Tag => TagDocumented(v);
    case Semi => SemiDocumented(v);
    case Lproc => LprocDocumented(v);
    case SectionScrap => SectionDocumented(v);
    case Insert => InsertDocumented(v);
    case Prelangle => PrelangleDocumented(v);
    case Prerangle => PrerangleDocumented(v);
    case Langle => LangleDocumented(v);
    case PublicLike => PublicDocumented(v);
    case Colcol => ColcolDocumented(v);
    case NewLike => NewDocumented(v);
    case OperatorLike => OperatorDocumented(v);
    case CatchLike => CatchDocumented(v);
    case Base => BaseDocumented(v);
    case RawRpar => RawRparDocumented(v);
    case RawUnorbin => RawUnorbinDocumented(v);
    case ConstLike => ConstDocumented(v);
    case RawInt => RawIntDocumented(v);
    case _ => NothingAgrees(v);
  }

  lemma NothingAgrees(v: View)
    ensures Agrees(NoMatch, v)
  {
  }

  /** Whatever the parser sees, what it does is the production of the documented table that has the same number, as to
      the scraps that are combined, the new category, the translation and the identifier that is made reserved; with
      the exception of five productions, which do what `Instead` says. */
  lemma ProductionAgrees(v: View)
    ensures Agrees(Production(v), v)
  {
    hide CaseOf, Agrees, Squash;
    if v.c1.EndArg? && LhsNotSimple(v.c0) {
      EndArgAgrees(v);
    } else if v.c1.Insert? || v.c2.Insert? || v.c3.Insert? {
      InsertAgrees(v, if v.c1.Insert? then -2 else if v.c2.Insert? then -1 else 0);
    } else {
      TableAgrees(v);
    }
  }

  lemma EndArgAgrees(v: View)
    requires v.c1.EndArg?
    ensures v.c0.BeginArg? ==> Agrees(Squash(0, 2, Exp, -2, 110), v)
    ensures Agrees(Squash(0, 2, EndArg, -1, 111), v)
  {
  }

  lemma InsertAgrees(v: View, d: int)
    requires v.c1.Insert? || v.c2.Insert? || v.c3.Insert?
    ensures var i := Absorber(v); v.At(i) == (if i == 0 then v.c0 else if i == 1 then v.c1 else v.c2)
    ensures var i := Absorber(v); Agrees(Squash(i, 2, v.At(i), d, 0), v)
  {
    var i := Absorber(v);
    var a := Squash(i, 2, v.At(i), d, 0);
    JoinedParts(i);
    assert Made(a) == Rule(i, 2, v.At(i), PartsOf(KidRun(i, 2)));
  }

  lemma JoinedParts(i: nat)
    ensures PartsOf(KidRun(i, 2)) == Joined(i, 2)
  {
    var inner := Kid(i + 1, End);
    assert KidRun(i, 2) == Kid(i, inner);
    assert PartsOf(inner) == [K(i + 1)] + PartsOf(End);
    assert Joined(i, 2) == [K(i)] + Joined(i + 1, 1);
  }
}
