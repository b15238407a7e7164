/** How far the parser must go back after a production: what it has passed over never matches again, with the exceptions
    named here. */
module LeftmostMatches {
  import opened Scraps
  import opened Productions
  import opened Parsing

  // ---------- where a production matches ----------

  /** A production matches whatever follows these two categories. */
  predicate Pair(a: Cat, b: Cat) {
    match a
    case Exp => b.Lbrace? || b.IntLike? || b.Decl? || b.Unop? || b.Exp? || b.Cast? || b.Semi? || b.Colon? || b.Rbrace?
    case Lpar => b.Rpar? || b.Stmt? || b.Decl?
    case Unop => b.Exp? || b.IntLike?
    case Unorbinop => b.Exp? || b.IntLike? || b.Binop?
    case Binop => b.Binop?
    case Cast => b.Exp? || b.Semi?
    case SizeofLike => b.Cast? || b.Exp?
    case IntLike =>
      b.IntLike? || b.StructLike? || b.Exp? || b.Unorbinop? || b.Semi? || b.Colon? || b.Prelangle? || b.Cast?
    case DeclHead => b.Comma? || b.Unorbinop? || b.Cast? || b.Lbrace? || b.Decl? || b.Semi?
    case Decl => b.Decl? || b.Stmt? || b.Function?
    case StructLike => b.Lbrace?
    case StructHead => b.Rbrace?
    case FnDecl => b.Decl? || b.Stmt?
    case Function => b.Function? || b.Decl? || b.Stmt?
    case Lbrace => b.Rbrace?
    case IfLike => b.Exp?
    case ForLike => b.Exp?
    case ElseLike => b.Lbrace? || b.Stmt?
    case ElseHead => b.Stmt? || b.Exp?
    case IfClause => b.Lbrace? || b.Stmt?
    case IfHead => b.Stmt? || b.Exp?
    case CaseLike => b.Semi? || b.Colon?
    case Tag => b.Tag? || b.Stmt? || b.Decl? || b.Function?
    case Stmt => b.Stmt? || b.Decl? || b.Function?
    case Lproc => b.ElseLike? || b.IfLike? || b.DefineLike? || b.Rproc?
    case Insert => !b.Zero?
    case Langle => b.Prerangle?
    case Colcol => b.Exp? || b.IntLike?
    case NewLike => !b.Lpar? && !b.RawInt? && !b.StructLike?
    case OperatorLike => !b.Binop? && !b.Unop? && !b.Unorbinop?
    case CatchLike => b.Cast? || b.Exp?
    case Semi | SectionScrap | Prelangle | Prerangle | PublicLike | RawRpar | RawUnorbin | ConstLike | RawInt => true
    case _ => false
  }

  /** A production matches these three categories, whatever follows. */
  predicate Triple(a: Cat, b: Cat, c: Cat) {
    match a
    case Exp => (b.Binop? || b.Unorbinop? || b.Comma?) && c.Exp?
    case Lpar => (b.Unorbinop? && c.Rpar?) || ((b.Exp? || b.DeclHead? || b.IntLike?) && (c.Rpar? || c.Comma?))
    case Question => b.Exp? && c.Colon?
    case IntLike => b.Colcol? && (c.Exp? || c.IntLike?)
    case DeclHead => (b.Exp? && !c.Lpar? && !c.Exp?) || (b.IntLike? && !c.Colcol?)
    case TypedefLike => b.DeclHead? && (c.IntLike? || c.Semi?)
    case StructLike => (b.Exp? || b.IntLike?) && !c.Base?
    case StructHead => (b.Decl? || b.Stmt? || b.Function?) && c.Rbrace?
    case Lbrace => (b.Stmt? || b.Decl? || b.Function? || b.Exp?) && c.Rbrace?
    case CaseLike => b.Exp? && (c.Semi? || c.Colon?)
    case Lproc => (b.Exp? || b.Function?) && c.Rproc?
    case Langle => (b.Exp? && c.Prerangle?) || ((b.DeclHead? || b.IntLike?) && (c.Prerangle? || c.Comma?))
    case NewLike => b.RawInt? && !c.Prelangle? && !c.Langle?
    case OperatorLike => !c.Binop?
    case Base => b.PublicLike? && c.Exp?
    case _ => false
  }

  /** A production matches these four categories. */
  predicate Quadruple(a: Cat, b: Cat, c: Cat, d: Cat) {
    match a
    case Exp => b.Base? && c.IntLike? && (d.Comma? || d.Lbrace?)
    case DeclHead => (b.Binop? || b.Colon?) && c.Exp? && (d.Comma? || d.Semi? || d.Rpar?)
    case TypedefLike => b.DeclHead? && c.Exp? && !d.Lpar? && !d.Exp?
    case Lbrace => b.Exp? && c.Comma? && d.Rbrace?
    case DoLike => b.Stmt? && c.ElseLike? && d.Semi?
    case Lproc => b.Exp? && c.Exp? && d.Rproc?
    case _ => false
  }

  /** The end of a macro argument, and an insert in sight, come first. */
  predicate Urgent(a: Cat, b: Cat, c: Cat, d: Cat) {
    (b.EndArg? && LhsNotSimple(a)) || b.Insert? || c.Insert? || d.Insert?
  }

  predicate Matches(a: Cat, b: Cat, c: Cat, d: Cat) {
    Urgent(a, b, c, d) || Pair(a, b) || Triple(a, b, c) || Quadruple(a, b, c, d)
  }

  /** A production matches exactly at these categories. */
  lemma MatchesIs(v: View)
    ensures Production(v).NoMatch? <==> !Matches(v.c0, v.c1, v.c2, v.c3)
  {
    hide CaseOf, LhsNotSimple;
    CaseMatchesIs(v);
  }

  lemma CaseMatchesIs(v: View)
    ensures CaseOf(v).NoMatch? <==>
            !Pair(v.c0, v.c1) && !Triple(v.c0, v.c1, v.c2) && !Quadruple(v.c0, v.c1, v.c2, v.c3)
  {
  }

  // ---------- which new categories make a difference ----------

  /** What a new fourth category `y` brings about in the place of `x`, but for an insert. */
  predicate Fourth(a: Cat, b: Cat, c: Cat, x: Cat, y: Cat) {
    || (c.IntLike? && (y.Comma? || y.Lbrace?))
    || (c.Exp? && (y.Comma? || y.Semi? || y.Rpar? || y.Rproc?))
    || (c.Comma? && y.Rbrace?)
    || (c.ElseLike? && y.Semi?)
    || (a.TypedefLike? && b.DeclHead? && c.Exp? && (x.Lpar? || x.Exp?) && !y.Lpar? && !y.Exp?)
  }

  lemma FourthCategory(a: Cat, b: Cat, c: Cat, x: Cat, y: Cat)
    requires !Matches(a, b, c, x) && Matches(a, b, c, y)
    ensures y.Insert? || Fourth(a, b, c, x, y)
  {
    hide Pair, Triple, LhsNotSimple, Quadruple, Fourth;
    if !y.Insert? {
      QuadrupleFourth(a, b, c, x, y);
    }
  }

  lemma QuadrupleFourth(a: Cat, b: Cat, c: Cat, x: Cat, y: Cat)
    requires !Quadruple(a, b, c, x) && Quadruple(a, b, c, y)
    ensures Fourth(a, b, c, x, y)
  {
  }

  /** Categories that are not wanted in third place. */
  predicate Mild(x: Cat) {
    match x
    case FnDecl | Tag | Lpar | DeclHead | StructHead | IfClause | ElseHead | IfHead => true
    case IfLike | ElseLike | Lproc | NewLike => true
    case Base | Langle | RawRpar | RawUnorbin | Stmt | Decl | Function | Binop | Cast | EndArg => true
    case _ => false
  }

  /** What a mild third category `x'` brings about in the place of `x`, but for an insert. */
  predicate Third(a: Cat, b: Cat, x: Cat, x': Cat, y': Cat) {
    || (a.DeclHead? && b.Exp? && (x.Lpar? || x.Exp?) && !x'.Lpar? && !x'.Exp?)
    || (a.DeclHead? && b.IntLike? && x.Colcol? && !x'.Colcol?)
    || (a.StructLike? && (b.Exp? || b.IntLike?) && x.Base? && !x'.Base?)
    || (a.NewLike? && b.RawInt? && (x.Prelangle? || x.Langle?) && !x'.Prelangle? && !x'.Langle?)
    || (a.OperatorLike? && (b.Binop? || b.Unop? || b.Unorbinop?) && x.Binop? && !x'.Binop?)
    || (a.DoLike? && b.Stmt? && x'.ElseLike? && y'.Semi?)
  }

  lemma ThirdCategory(a: Cat, b: Cat, x: Cat, y: Cat, x': Cat, y': Cat)
    requires !Matches(a, b, x, y) && Matches(a, b, x', y') && Mild(x')
    ensures y'.Insert? || Third(a, b, x, x', y')
  {
    hide Pair, Triple, LhsNotSimple, Quadruple, Third, Mild;
    MildInsert(x');
    if !y'.Insert? {
      if Triple(a, b, x') {
        TripleThird(a, b, x, x', y');
      } else {
        QuadrupleThird(a, b, x, x', y');
      }
    }
  }

  lemma MildInsert(x: Cat)
    requires Mild(x)
    ensures !x.Insert?
  {
  }

  lemma TripleThird(a: Cat, b: Cat, x: Cat, x': Cat, y': Cat)
    requires !Triple(a, b, x) && Triple(a, b, x') && !Pair(a, b) && Mild(x')
    ensures Third(a, b, x, x', y')
  {
    hide Pair;
    if a.OperatorLike? {
      OperatorPair(a, b);
    }
  }

  lemma OperatorPair(a: Cat, b: Cat)
    requires a.OperatorLike? && !Pair(a, b)
    ensures b.Binop? || b.Unop? || b.Unorbinop?
  {
  }

  lemma QuadrupleThird(a: Cat, b: Cat, x: Cat, x': Cat, y': Cat)
    requires Quadruple(a, b, x', y') && Mild(x')
    ensures Third(a, b, x, x', y')
  {
  }

  lemma ThirdMatches(a: Cat, b: Cat, x: Cat, x': Cat, y': Cat)
    requires Third(a, b, x, x', y')
    ensures Matches(a, b, x', y')
  {
    hide Pair, LhsNotSimple;
  }

  /** Categories that few productions want in second place. */
  predicate Gentle(x: Cat) {
    match x
    case FnDecl | Tag | Lpar | DeclHead | StructHead | IfClause | ElseHead | IfHead => true
    case IfLike | ElseLike | Lproc | NewLike => true
    case Base | Langle | RawRpar | RawUnorbin => true
    case _ => false
  }

  /** What a gentle second category `x'` brings about in the place of `x`, but for an insert. */
  predicate Second(a: Cat, x: Cat, x': Cat, y': Cat, z': Cat) {
    || (a.Tag? && x'.Tag?)
    || (a.Lproc? && (x'.IfLike? || x'.ElseLike?))
    || (a.NewLike? && (x.Lpar? || x.RawInt? || x.StructLike?) && !x'.Lpar?)
    || (a.OperatorLike? && (x.Binop? || x.Unop? || x.Unorbinop?))
    || (x'.DeclHead? && ((a.Lpar? && (y'.Rpar? || y'.Comma?)) || (a.Langle? && (y'.Prerangle? || y'.Comma?))))
    || (x'.DeclHead? && a.TypedefLike? && (y'.IntLike? || y'.Semi? || (y'.Exp? && !z'.Lpar? && !z'.Exp?)))
    || (a.Exp? && x'.Base? && y'.IntLike? && (z'.Comma? || z'.Lbrace?))
  }

  lemma SecondCategory(a: Cat, x: Cat, y: Cat, z: Cat, x': Cat, y': Cat, z': Cat)
    requires !Matches(a, x, y, z) && !x.Zero? && Gentle(x')
    requires !y'.Insert? && !z'.Insert?
    ensures Matches(a, x', y', z') <==> Second(a, x, x', y', z')
  {
    hide *;
    MatchesAt(a, x, y, z);
    MatchesAt(a, x', y', z');
    GentleSecond(a, x', y', z');
    PairSecond(a, x, x', y', z');
    if Second(a, x, x', y', z') {
      SecondMatches(a, x, x', y', z');
    }
    TripleSecond(a, x, x', y', z');
    if Quadruple(a, x', y', z') {
      QuadrupleSecond(a, x, x', y', z');
    }
  }

  lemma MatchesAt(a: Cat, b: Cat, c: Cat, d: Cat)
    ensures Matches(a, b, c, d) <==> Urgent(a, b, c, d) || Pair(a, b) || Triple(a, b, c) || Quadruple(a, b, c, d)
  {
    hide Pair, Triple, Quadruple, Urgent;
  }

  lemma GentleSecond(a: Cat, x: Cat, y: Cat, z: Cat)
    requires Gentle(x) && !y.Insert? && !z.Insert?
    ensures !Urgent(a, x, y, z)
  {
  }

  lemma PairSecond(a: Cat, x: Cat, x': Cat, y': Cat, z': Cat)
    requires !Pair(a, x) && Gentle(x') && !x.Zero?
    ensures Pair(a, x') ==> Second(a, x, x', y', z')
  {
  }

  lemma SecondMatches(a: Cat, x: Cat, x': Cat, y': Cat, z': Cat)
    requires Second(a, x, x', y', z') && Gentle(x')
    ensures Pair(a, x') || Triple(a, x', y') || Quadruple(a, x', y', z')
  {
  }

  lemma TripleSecond(a: Cat, x: Cat, x': Cat, y': Cat, z': Cat)
    requires !Pair(a, x) && Gentle(x')
    ensures Triple(a, x', y') ==> Second(a, x, x', y', z')
  {
  }

  lemma QuadrupleSecond(a: Cat, x: Cat, x': Cat, y': Cat, z': Cat)
    requires Quadruple(a, x', y', z') && Gentle(x')
    ensures Second(a, x, x', y', z')
  {
  }

  // ---------- what productions put where ----------

  function Size(a: Action): nat {
    if a.Reduce? then a.k else 1
  }

  predicate Reserving(a: Action) {
    a.Reduce? && a.reserve.Some?
  }

  /** What is known of the productions that go forward or stay. */
  predicate TameSecond(a: Action, v: View)
    requires !a.NoMatch?
  {
    a.d >= 0 && a.at == 0 ==>
      && Gentle(a.cat)
      && (a.n == 7 <==> a.cat.Tag?)
      && (63 <= a.n <= 67 <==> a.cat.IfLike? || a.cat.ElseLike?)
      && (a.n == 44 || a.n == 46 ==> a.cat.StructHead?)
      && (a.n == 45 ==> a.cat.DeclHead? && Size(a) == 2 && v.c2.Semi?)
      && (a.n != 45 && a.cat.DeclHead? ==> Size(a) == 1 && v.c1.Colon?)
      && (v.c0.StructLike? <==> 44 <= a.n <= 46)
      && (a.cat.Base? <==> a.n == 101)
      && (a.n == 101 ==> Size(a) == 4 && !Reserving(a))
      && (v.c0.Lpar? ==> a.cat.Lpar?)
      && !v.c0.RawInt? && !v.c0.Binop? && !v.c0.Unop? && !v.c0.Unorbinop?
  }

  /** Productions that change a later scrap, and go forward or stay. */
  predicate TameLater(a: Action, v: View)
    requires !a.NoMatch?
  {
    && (a.d >= 0 && a.at > 0 ==>
          && !(a.n == 7 || 44 <= a.n <= 46 || 63 <= a.n <= 67 || a.n == 101)
          && (|| (a.n == 0 && a.at == 2 && Size(a) == 2 && a.cat == v.c2 && a.d == 0)
              || (a.n == 8 && a.at == 1 && Size(a) == 3 && a.cat.Base? && v.c1.Base? && a.d == 0)
              || (a.n == 29 && a.at == 1 && Size(a) == 1 && a.cat.Langle? && v.c1.Prelangle? && v.c0.IntLike?
                  && a.d == 1)
              || (a.n == 42 && a.at == 1 && Size(a) == 2 && a.cat.DeclHead? && v.c1.DeclHead? && a.d == 0)))
    && (a.at == 1 ==>
          a.cat == v.c1 || ((a.cat.Langle? || a.cat.IntLike?) && !v.c1.Lpar? && !v.c1.Exp?))
    && (a.d == 1 ==>
          || (a.n == 29 && a.at == 1)
          || (a.n == 31 && a.at == 0 && Size(a) == 2 && a.cat.FnDecl? && v.c2.Lbrace?))
    && a.d <= 1 && a.at <= 2
  }

  /** Productions that go back at most by one. */
  predicate TameThird(a: Action, v: View)
    requires !a.NoMatch?
  {
    a.d >= -1 && a.at == 0 ==>
      && (Mild(a.cat) || a.cat.Insert?
          || (a.n == 9 && a.cat.Exp? && v.c0.Exp? && Size(a) == 3 && v.c3.Lbrace? && v.c1.Base?))
      && (a.n != 111 ==>
            && (v.c0.Lpar? ==> a.cat.Lpar?) && (v.c0.Base? ==> a.cat.Base?) && (v.c0.Binop? ==> a.cat.Binop?)
            && !v.c0.Colcol?)
      && (a.cat.ElseLike? <==> a.n == 64 || a.n == 65 || a.n == 67)
      && (a.n == 64 || a.n == 67 ==> Size(a) == 3)
      && (a.n == 65 ==> Size(a) == 1 && v.c1.Stmt?)
      && (a.n == 111 ==> a.cat.EndArg?)
  }

  /** Productions that go back at most by two. */
  predicate TameFourth(a: Action, v: View)
    requires !a.NoMatch?
  {
    && (a.d >= -2 && a.at == 0 ==>
          && (a.cat == v.c0 || a.cat.Insert?
              || (!a.cat.Comma? && !a.cat.Lbrace? && !a.cat.Semi? && !a.cat.Rpar? && !a.cat.Rproc? && !a.cat.Rbrace?))
          && (v.c0.Lpar? ==> a.cat.Lpar? || a.cat.Exp? || a.n == 13 || a.n == 111))
    && (a.n == 13 ==> a.cat.Cast? && v.c0.Lpar? && a.at == 0 && a.d == -2)
    && (a.n == 7 || 44 <= a.n <= 46 || 63 <= a.n <= 67 || a.n == 101 ==> a.at == 0 && a.d == 0)
    && (a.n == 111 ==> a.cat.EndArg? && a.at == 0 && a.d == -1)
  }

  /** Where inserts can be. */
  predicate TameInsert(a: Action, v: View)
    requires !a.NoMatch?
  {
    && Size(a) >= 1 && a.at + Size(a) <= 4 && Size(a) + a.d <= 4 && (a.cat.Insert? ==> a.d >= -1 && a.at == 0)
    && (v.c3.Insert? && !v.c1.Insert? && !v.c2.Insert? ==>
          && Size(a) == 2
          && (|| (a.at == 2 && a.d == 0 && a.cat == v.c2)
              || (a.at == 0 && a.d <= -1 && !a.cat.Insert?)))
  }

  predicate OfExpressions(c: Cat) {
    match c
    case Exp | Lpar | Question | Unop | Unorbinop | Binop | Cast | SizeofLike | Colcol | NewLike | OperatorLike => true
    case _ => false
  }

  predicate OfDeclarations(c: Cat) {
    match c
    case IntLike | DeclHead | Decl | TypedefLike | StructLike | StructHead | FnDecl | Function | Langle | Base => true
    case _ => false
  }

  predicate OfClauses(c: Cat) {
    match c
    case Lbrace | DoLike | IfLike | ForLike | ElseLike | ElseHead | IfClause | IfHead | CaseLike | CatchLike => true
    case _ => false
  }

  lemma NearExpressions(v: View)
    requires OfExpressions(v.c0) && !CaseOf(v).NoMatch? && !v.c0.Insert?
    ensures TameSecond(CaseOf(v), v)
    ensures TameLater(CaseOf(v), v)
  {
  }

  lemma NearDeclarations(v: View)
    requires OfDeclarations(v.c0) && !CaseOf(v).NoMatch? && !v.c0.Insert?
    ensures TameSecond(CaseOf(v), v)
    ensures TameLater(CaseOf(v), v)
  {
  }

  lemma NearClauses(v: View)
    requires OfClauses(v.c0) && !CaseOf(v).NoMatch? && !v.c0.Insert?
    ensures TameSecond(CaseOf(v), v)
    ensures TameLater(CaseOf(v), v)
  {
  }

  lemma NearRest(v: View)
    requires !OfExpressions(v.c0) && !OfDeclarations(v.c0) && !OfClauses(v.c0) && !CaseOf(v).NoMatch? && !v.c0.Insert?
    ensures TameSecond(CaseOf(v), v)
    ensures TameLater(CaseOf(v), v)
  {
  }

  lemma FarExpressions(v: View)
    requires OfExpressions(v.c0) && !CaseOf(v).NoMatch? && !v.c0.Insert?
    ensures TameThird(CaseOf(v), v)
  {
  }

  lemma FarDeclarations(v: View)
    requires OfDeclarations(v.c0) && !CaseOf(v).NoMatch? && !v.c0.Insert?
    ensures TameThird(CaseOf(v), v)
  {
  }

  lemma FarClauses(v: View)
    requires OfClauses(v.c0) && !CaseOf(v).NoMatch? && !v.c0.Insert?
    ensures TameThird(CaseOf(v), v)
  {
  }

  lemma FarRest(v: View)
    requires !OfExpressions(v.c0) && !OfDeclarations(v.c0) && !OfClauses(v.c0) && !CaseOf(v).NoMatch? && !v.c0.Insert?
    ensures TameThird(CaseOf(v), v)
  {
  }

  lemma EdgeExpressions(v: View)
    requires OfExpressions(v.c0) && !CaseOf(v).NoMatch? && !v.c0.Insert?
    ensures TameFourth(CaseOf(v), v)
    ensures TameInsert(CaseOf(v), v) || v.c3.Insert?
  {
  }

  lemma EdgeDeclarations(v: View)
    requires OfDeclarations(v.c0) && !CaseOf(v).NoMatch? && !v.c0.Insert?
    ensures TameFourth(CaseOf(v), v)
    ensures TameInsert(CaseOf(v), v) || v.c3.Insert?
  {
  }

  lemma EdgeClauses(v: View)
    requires OfClauses(v.c0) && !CaseOf(v).NoMatch? && !v.c0.Insert?
    ensures TameFourth(CaseOf(v), v)
    ensures TameInsert(CaseOf(v), v) || v.c3.Insert?
  {
  }

  lemma EdgeRest(v: View)
    requires !OfExpressions(v.c0) && !OfDeclarations(v.c0) && !OfClauses(v.c0) && !CaseOf(v).NoMatch? && !v.c0.Insert?
    ensures TameFourth(CaseOf(v), v)
    ensures TameInsert(CaseOf(v), v) || v.c3.Insert?
  {
  }

  lemma CaseTame(v: View)
    requires !CaseOf(v).NoMatch? && !v.c0.Insert?
    ensures var a := CaseOf(v);
      && TameSecond(a, v) && TameLater(a, v) && TameThird(a, v) && TameFourth(a, v)
        && (TameInsert(a, v) || v.c3.Insert?)
  {
    hide *;
    if OfExpressions(v.c0) {
      NearExpressions(v);
      FarExpressions(v);
      EdgeExpressions(v);
    } else if OfDeclarations(v.c0) {
      NearDeclarations(v);
      FarDeclarations(v);
      EdgeDeclarations(v);
    } else if OfClauses(v.c0) {
      NearClauses(v);
      FarClauses(v);
      EdgeClauses(v);
    } else {
      NearRest(v);
      FarRest(v);
      EdgeRest(v);
    }
  }

  /** Everything that the proof below uses of the productions. */
  predicate Tame(a: Action, v: View)
    requires !a.NoMatch?
  {
    TameSecond(a, v) && TameLater(a, v) && TameThird(a, v) && TameFourth(a, v) && TameInsert(a, v)
  }

  lemma ProductionTame(v: View)
    requires !Production(v).NoMatch? && !v.c0.Insert? && !v.c1.Insert? && !v.c2.Insert?
    ensures Tame(Production(v), v)
  {
    hide CaseOf;
    if !(v.c1.EndArg? && LhsNotSimple(v.c0)) && !v.c3.Insert? {
      hide TameSecond, TameLater, TameThird, TameFourth, TameInsert;
      CaseTame(v);
    }
  }

  // ---------- what may match after a production ----------

  function AtSix(v: View, c4: Cat, c5: Cat, i: nat): Cat {
    if i == 4 then c4 else if i == 5 then c5 else v.At(i)
  }

  /** The category at `pp + i` after an action, but for `make_reserved`. */
  function After(a: Action, v: View, c4: Cat, c5: Cat, i: nat): Cat
    requires !a.NoMatch?
  {
    if i < a.at then v.At(i) else if i == a.at then a.cat else AtSix(v, c4, c5, i + Size(a) - 1)
  }

  /** Some production puts an insert where it can be seen from before the new position: `c4` and `c5` are the categories
      after the four that the parser sees. */
  predicate Exposes(a: Action, c4: Cat, c5: Cat)
    requires !a.NoMatch?
  {
    a.cat.Insert? || (c4.Insert? && Size(a) + a.d >= 3) || (c5.Insert? && Size(a) + a.d >= 4)
  }

  /** A production passes over a match that it makes possible: `l1`, `l2` and `l3` are the categories at `pp - 1`, `pp
      - 2` and `pp - 3`. */
  predicate PassesOne(n: nat, l1: Cat, c4: Cat, c5: Cat) {
    match n
    case 7 => l1.Tag?
    case 44 | 46 => l1.NewLike?
    case 45 => l1.NewLike? || l1.TypedefLike?
    case 63 | 64 | 65 | 66 | 67 => l1.Lproc?
    case 101 => l1.Exp? && c4.IntLike? && (c5.Comma? || c5.Lbrace?)
    case _ => false
  }

  predicate PassesTwo(n: nat, l2: Cat, l1: Cat, v: View) {
    match n
    case 64 | 67 => l2.DoLike? && l1.Stmt? && v.c3.Semi?
    case 111 =>
      || (l2.DeclHead? && l1.Exp? && v.c0.Lpar?) || (l2.DeclHead? && l1.IntLike? && v.c0.Colcol?)
      || (l2.StructLike? && (l1.Exp? || l1.IntLike?) && v.c0.Base?)
      || (l2.OperatorLike? && l1.Unop? && v.c0.Binop?)
    case _ => false
  }

  predicate PassesThree(n: nat, l3: Cat, l2: Cat, l1: Cat) {
    n == 13 && l3.TypedefLike? && l2.DeclHead? && l1.Exp?
  }

  /** The category at `pp + i` after an action. */
  predicate IsAfter(x: Cat, a: Action, v: View, c4: Cat, c5: Cat, i: nat)
    requires !a.NoMatch?
  {
    || x == After(a, v, c4, c5, i)
    || (Reserving(a) && i > a.at && After(a, v, c4, c5, i).Exp? && x.RawInt?)
  }

  /** The case of a match at `pp - 1`. */
  lemma MatchOne(l1: Cat, a: Action, v: View, c4: Cat, c5: Cat, n0: Cat, n1: Cat, n2: Cat)
    requires !a.NoMatch? && Tame(a, v) && a.d >= 0
    requires IsAfter(n0, a, v, c4, c5, 0) && IsAfter(n1, a, v, c4, c5, 1) && IsAfter(n2, a, v, c4, c5, 2)
    requires !Matches(l1, v.c0, v.c1, v.c2) && !v.c0.Zero?
    requires !n0.Insert? && !n1.Insert? && !n2.Insert?
    ensures Matches(l1, n0, n1, n2) <==> PassesOne(a.n, l1, c4, c5)
  {
    hide Matches, TameThird, TameFourth, TameInsert, Gentle, Second, PassesOne;
    if a.at == 0 {
      NextCats(a, v, c4, c5, n1, n2);
      NextPasses(l1, a, v, c4, c5, n1, n2);
      SecondCategory(l1, v.c0, v.c1, v.c2, n0, n1, n2);
    } else {
      LaterOne(l1, a, v, c4, c5, n0, n1, n2);
    }
  }

  lemma NextCats(a: Action, v: View, c4: Cat, c5: Cat, n1: Cat, n2: Cat)
    requires !a.NoMatch? && TameSecond(a, v) && a.d >= 0 && a.at == 0
    requires IsAfter(n1, a, v, c4, c5, 1) && IsAfter(n2, a, v, c4, c5, 2)
    ensures a.cat.DeclHead? ==> if a.n == 45 then n1.Semi? else n1.Colon?
    ensures a.cat.Base? ==> n1 == c4 && n2 == c5
  {
    hide Gentle;
  }

  lemma NextPasses(l1: Cat, a: Action, v: View, c4: Cat, c5: Cat, n1: Cat, n2: Cat)
    requires !a.NoMatch? && TameSecond(a, v) && a.d >= 0 && a.at == 0
    requires a.cat.DeclHead? ==> if a.n == 45 then n1.Semi? else n1.Colon?
    requires a.cat.Base? ==> n1 == c4 && n2 == c5
    ensures Second(l1, v.c0, a.cat, n1, n2) <==> PassesOne(a.n, l1, c4, c5)
  {
    hide Gentle, Second, PassesOne;
    if v.c0.StructLike? {
      StructPasses(l1, a.n, a.cat, n1, n2, c4, c5);
    } else if a.cat.Base? {
      BasePasses(l1, v.c0, c4, c5);
    } else {
      OtherPasses(l1, v.c0, a.n, a.cat, n1, n2, c4, c5);
    }
  }

  lemma StructPasses(l1: Cat, n: nat, cat: Cat, n1: Cat, n2: Cat, c4: Cat, c5: Cat)
    requires 44 <= n <= 46 && (if n == 45 then cat.DeclHead? && n1.Semi? else cat.StructHead?)
    ensures Second(l1, StructLike, cat, n1, n2) <==> PassesOne(n, l1, c4, c5)
  {
  }

  lemma BasePasses(l1: Cat, c0: Cat, c4: Cat, c5: Cat)
    requires !c0.StructLike? && !c0.Lpar? && !c0.RawInt? && !c0.Binop? && !c0.Unop? && !c0.Unorbinop?
    ensures Second(l1, c0, Base, c4, c5) <==> PassesOne(101, l1, c4, c5)
  {
  }

  lemma OtherPasses(l1: Cat, c0: Cat, n: nat, cat: Cat, n1: Cat, n2: Cat, c4: Cat, c5: Cat)
    requires !c0.StructLike? && (c0.Lpar? ==> cat.Lpar?) && !c0.RawInt? && !c0.Binop? && !c0.Unop? && !c0.Unorbinop?
    requires (n == 7 <==> cat.Tag?) && (63 <= n <= 67 <==> cat.IfLike? || cat.ElseLike?)
    requires !(44 <= n <= 46) && n != 101 && !cat.Base? && (cat.DeclHead? ==> n1.Colon?)
    ensures Second(l1, c0, cat, n1, n2) <==> PassesOne(n, l1, c4, c5)
  {
  }

  lemma LaterOne(l1: Cat, a: Action, v: View, c4: Cat, c5: Cat, n0: Cat, n1: Cat, n2: Cat)
    requires !a.NoMatch? && TameLater(a, v) && a.d >= 0 && a.at > 0
    requires IsAfter(n0, a, v, c4, c5, 0) && IsAfter(n1, a, v, c4, c5, 1) && IsAfter(n2, a, v, c4, c5, 2)
    requires !Matches(l1, v.c0, v.c1, v.c2) && !n2.Insert?
    ensures !Matches(l1, n0, n1, n2) && !PassesOne(a.n, l1, c4, c5)
  {
    hide Matches, Fourth, Third, PassesOne;
    LaterCats(a, v, c4, c5, n0, n1, n2);
    NotPassed(a.n, l1, c4, c5);
    if Matches(l1, n0, n1, n2) {
      if a.n == 29 {
        ThirdCategory(l1, v.c0, v.c1, v.c2, n1, n2);
        LangleThird(l1, n2);
      } else if a.n != 0 {
        FourthCategory(l1, v.c0, v.c1, v.c2, n2);
        BaseFourth(l1, v.c0, v.c1, v.c2, n2);
      }
    }
  }

  lemma LaterCats(a: Action, v: View, c4: Cat, c5: Cat, n0: Cat, n1: Cat, n2: Cat)
    requires !a.NoMatch? && TameLater(a, v) && a.d >= 0 && a.at > 0
    requires IsAfter(n0, a, v, c4, c5, 0) && IsAfter(n1, a, v, c4, c5, 1) && IsAfter(n2, a, v, c4, c5, 2)
    ensures n0 == v.c0
    ensures a.n == 0 ==> n1 == v.c1 && n2 == v.c2
    ensures a.n == 29 ==> n0.IntLike? && v.c1.Prelangle? && n1.Langle?
    ensures a.n != 0 && a.n != 29 ==> (n1.Base? || n1.DeclHead?) && n1 == v.c1
    ensures a.n == 0 || a.n == 8 || a.n == 29 || a.n == 42
  {
  }

  lemma NotPassed(n: nat, l1: Cat, c4: Cat, c5: Cat)
    requires n == 0 || n == 8 || n == 29 || n == 42
    ensures !PassesOne(n, l1, c4, c5)
  {
  }

  lemma LangleThird(a: Cat, y: Cat)
    ensures !Third(a, IntLike, Prelangle, Langle, y)
  {
  }

  lemma BaseFourth(a: Cat, b: Cat, c: Cat, x: Cat, y: Cat)
    requires c.Base? || c.DeclHead?
    ensures !Fourth(a, b, c, x, y)
  {
  }

  /** The case of a match at `pp - 2`. */
  lemma MatchTwo(l2: Cat, l1: Cat, a: Action, v: View, c4: Cat, c5: Cat, n0: Cat, n1: Cat)
    requires !a.NoMatch? && Tame(a, v) && a.d >= -1
    requires IsAfter(n0, a, v, c4, c5, 0) && IsAfter(n1, a, v, c4, c5, 1)
    requires !Matches(l2, l1, v.c0, v.c1) && !Matches(l1, v.c0, v.c1, v.c2)
    requires !n0.Insert? && !n1.Insert?
    ensures Matches(l2, l1, n0, n1) <==> PassesTwo(a.n, l2, l1, v)
  {
    hide Matches, TameSecond, TameInsert, Third, Fourth, PassesTwo;
    if a.at > 0 {
      LaterTwo(l2, l1, a, v, c4, c5, n0, n1);
    } else if a.n == 9 && a.cat.Exp? {
      NineTwo(l2, l1, a, v, c4, c5, n1);
    } else {
      if Matches(l2, l1, n0, n1) {
        ThirdCategory(l2, l1, v.c0, v.c1, n0, n1);
      }
      if Third(l2, l1, v.c0, n0, n1) {
        ThirdMatches(l2, l1, v.c0, n0, n1);
      }
      ThirdPasses(l2, l1, a, v, c4, c5, n1);
    }
  }

  /** Categories before which a match is sure. */
  lemma NoPair(a: Cat, b: Cat, c: Cat, d: Cat)
    requires !Matches(a, b, c, d)
    ensures !(a.Exp? && b.Exp?) && !a.RawInt? && !(a.Binop? && b.Binop?) && !(a.Unorbinop? && b.Binop?)
  {
    hide Triple, Quadruple, LhsNotSimple;
  }

  lemma ThirdPasses(l2: Cat, l1: Cat, a: Action, v: View, c4: Cat, c5: Cat, n1: Cat)
    requires !a.NoMatch? && a.d >= -1 && a.at == 0 && TameThird(a, v) && IsAfter(n1, a, v, c4, c5, 1)
    requires !Matches(l1, v.c0, v.c1, v.c2) && Mild(a.cat)
    ensures Third(l2, l1, v.c0, a.cat, n1) <==> PassesTwo(a.n, l2, l1, v)
  {
    hide Matches, Mild, Third, PassesTwo;
    NoPair(l1, v.c0, v.c1, v.c2);
    ElseThird(a, v, c4, c5, n1);
    if a.n == 111 {
      EndThird(l2, l1, v, n1);
    } else {
      OtherThird(l2, l1, a, v, n1);
    }
  }

  lemma ElseThird(a: Action, v: View, c4: Cat, c5: Cat, n1: Cat)
    requires !a.NoMatch? && a.d >= -1 && a.at == 0 && TameThird(a, v) && IsAfter(n1, a, v, c4, c5, 1)
    ensures a.n == 64 || a.n == 67 ==> (n1.Semi? <==> v.c3.Semi?)
    ensures a.n == 65 ==> !n1.Semi?
  {
    hide Mild;
  }

  lemma EndThird(l2: Cat, l1: Cat, v: View, n1: Cat)
    requires !(l1.Exp? && v.c0.Exp?) && !l1.RawInt? && !(l1.Binop? && v.c0.Binop?) && !(l1.Unorbinop? && v.c0.Binop?)
    ensures Third(l2, l1, v.c0, EndArg, n1) <==> PassesTwo(111, l2, l1, v)
  {
  }

  lemma OtherThird(l2: Cat, l1: Cat, a: Action, v: View, n1: Cat)
    requires !a.NoMatch? && a.d >= -1 && a.at == 0 && TameThird(a, v) && a.n != 111
    requires !(l1.Exp? && v.c0.Exp?) && !l1.RawInt?
    requires a.n == 64 || a.n == 67 ==> (n1.Semi? <==> v.c3.Semi?)
    requires a.n == 65 ==> !n1.Semi?
    ensures Third(l2, l1, v.c0, a.cat, n1) <==> PassesTwo(a.n, l2, l1, v)
  {
    hide Mild;
  }

  lemma NineTwo(l2: Cat, l1: Cat, a: Action, v: View, c4: Cat, c5: Cat, n1: Cat)
    requires !a.NoMatch? && a.d >= -1 && a.at == 0 && a.n == 9 && TameThird(a, v) && a.cat.Exp?
    requires IsAfter(n1, a, v, c4, c5, 1) && !Matches(l2, l1, v.c0, v.c1)
    ensures !Matches(l2, l1, a.cat, n1) && !PassesTwo(a.n, l2, l1, v)
  {
    hide Matches, Fourth;
    assert !Mild(Exp);
    assert n1.Lbrace? && v.c1.Base?;
    if Matches(l2, l1, a.cat, n1) {
      FourthCategory(l2, l1, v.c0, v.c1, n1);
      ExpFourth(l2, l1);
    }
  }

  lemma ExpFourth(a: Cat, b: Cat)
    ensures !Fourth(a, b, Exp, Base, Lbrace)
  {
  }

  lemma LaterTwo(l2: Cat, l1: Cat, a: Action, v: View, c4: Cat, c5: Cat, n0: Cat, n1: Cat)
    requires !a.NoMatch? && TameLater(a, v) && TameFourth(a, v) && a.at > 0
    requires IsAfter(n0, a, v, c4, c5, 0) && IsAfter(n1, a, v, c4, c5, 1) && !n1.Insert?
    requires !Matches(l2, l1, v.c0, v.c1)
    ensures !Matches(l2, l1, n0, n1) && !PassesTwo(a.n, l2, l1, v)
  {
    hide Matches, Fourth, PassesTwo;
    TwoCats(l2, l1, a, v, c4, c5, n0, n1);
    if a.at == 1 && a.cat != v.c1 && Matches(l2, l1, n0, n1) {
      FourthCategory(l2, l1, v.c0, v.c1, n1);
      MeekFourth(l2, l1, v.c0, v.c1, n1);
    }
  }

  lemma TwoCats(l2: Cat, l1: Cat, a: Action, v: View, c4: Cat, c5: Cat, n0: Cat, n1: Cat)
    requires !a.NoMatch? && TameLater(a, v) && TameFourth(a, v) && a.at > 0
    requires IsAfter(n0, a, v, c4, c5, 0) && IsAfter(n1, a, v, c4, c5, 1)
    ensures n0 == v.c0 && n1 == (if a.at == 1 then a.cat else v.c1) && !PassesTwo(a.n, l2, l1, v)
  {
  }

  lemma MeekFourth(a: Cat, b: Cat, c: Cat, x: Cat, y: Cat)
    requires (y.Langle? || y.IntLike?) && !x.Lpar? && !x.Exp?
    ensures !Fourth(a, b, c, x, y)
  {
  }

  /** The case of a match at `pp - 3`. */
  lemma MatchThree(l3: Cat, l2: Cat, l1: Cat, a: Action, v: View, c4: Cat, c5: Cat, n0: Cat)
    requires !a.NoMatch? && Tame(a, v) && a.d >= -2
    requires IsAfter(n0, a, v, c4, c5, 0)
    requires !Matches(l3, l2, l1, v.c0) && !Matches(l1, v.c0, v.c1, v.c2)
    requires !n0.Insert?
    ensures Matches(l3, l2, l1, n0) ==> PassesThree(a.n, l3, l2, l1) || PassesTwo(a.n, l2, l1, v)
    ensures PassesThree(a.n, l3, l2, l1) ==> Matches(l3, l2, l1, n0)
  {
    hide Matches, TameSecond, TameThird, TameLater, TameInsert, Fourth, PassesTwo;
    NoPair(l1, v.c0, v.c1, v.c2);
    if Matches(l3, l2, l1, n0) && n0 != v.c0 {
      FourthCategory(l3, l2, l1, v.c0, n0);
      FourthPasses(l3, l2, l1, a, v);
    }
    if PassesThree(a.n, l3, l2, l1) {
      CastMatches();
    }
  }

  lemma CastMatches()
    ensures Matches(TypedefLike, DeclHead, Exp, Cast)
  {
  }

  lemma FourthPasses(l3: Cat, l2: Cat, l1: Cat, a: Action, v: View)
    requires !a.NoMatch? && TameFourth(a, v) && a.d >= -2 && a.at == 0 && !a.cat.Insert? && a.cat != v.c0
    requires Fourth(l3, l2, l1, v.c0, a.cat) && !(l1.Exp? && v.c0.Exp?)
    ensures PassesThree(a.n, l3, l2, l1) || PassesTwo(a.n, l2, l1, v)
  {
  }

  /** The case of a match at `pp`, where the parser goes on. */
  lemma MatchHere(a: Action, v: View, c4: Cat, c5: Cat, n0: Cat, n1: Cat, n2: Cat, n3: Cat)
    requires !a.NoMatch? && Tame(a, v) && a.d == 1
    requires IsAfter(n0, a, v, c4, c5, 0) && IsAfter(n1, a, v, c4, c5, 1)
    requires !n1.Insert? && !n2.Insert? && !n3.Insert?
    ensures !Matches(n0, n1, n2, n3)
  {
    hide Matches, TameSecond, TameThird, TameFourth, TameInsert;
    if a.n == 29 {
      assert n0.IntLike? && n1.Langle?;
    } else {
      assert n0.FnDecl? && n1.Lbrace?;
    }
    QuietPair(n0, n1, n2, n3);
  }

  lemma QuietPair(a: Cat, b: Cat, c: Cat, d: Cat)
    requires (a.IntLike? && b.Langle?) || (a.FnDecl? && b.Lbrace?)
    requires !c.Insert? && !d.Insert?
    ensures !Matches(a, b, c, d)
  {
    hide *;
    MatchesAt(a, b, c, d);
    QuietUrgent(a, b, c, d);
    QuietRest(a, b, c, d);
  }

  lemma QuietUrgent(a: Cat, b: Cat, c: Cat, d: Cat)
    requires !b.EndArg? && !b.Insert? && !c.Insert? && !d.Insert?
    ensures !Urgent(a, b, c, d)
  {
  }

  lemma QuietRest(a: Cat, b: Cat, c: Cat, d: Cat)
    requires (a.IntLike? && b.Langle?) || (a.FnDecl? && b.Lbrace?)
    ensures !Pair(a, b) && !Triple(a, b, c) && !Quadruple(a, b, c, d)
  {
  }

  lemma InsertAfter(x: Cat, a: Action, v: View, c4: Cat, c5: Cat, i: nat)
    requires !a.NoMatch? && IsAfter(x, a, v, c4, c5, i)
    ensures x.Insert? <==> After(a, v, c4, c5, i).Insert?
  {
    hide After;
  }

  /** Inserts that can be seen from before the new position. */
  predicate Seen(a: Action, n0: Cat, n1: Cat, n2: Cat, n3: Cat)
    requires !a.NoMatch?
  {
    (a.d >= -2 && n0.Insert?) || (a.d >= -1 && n1.Insert?) || (a.d >= 0 && n2.Insert?) || (a.d >= 1 && n3.Insert?)
  }

  lemma InsertsSeen(a: Action, v: View, c4: Cat, c5: Cat, n0: Cat, n1: Cat, n2: Cat, n3: Cat)
    requires !a.NoMatch? && TameInsert(a, v) && a.d <= 1
    requires IsAfter(n0, a, v, c4, c5, 0) && IsAfter(n1, a, v, c4, c5, 1) && IsAfter(n2, a, v, c4, c5, 2)
    requires a.d == 1 ==> IsAfter(n3, a, v, c4, c5, 3) && Size(a) <= 2
    requires !v.c0.Insert? && !v.c1.Insert? && !v.c2.Insert?
    ensures Seen(a, n0, n1, n2, n3) <==> Exposes(a, c4, c5)
  {
    hide After, IsAfter, Seen, Exposes;
    InsertAfter(n0, a, v, c4, c5, 0);
    InsertAfter(n1, a, v, c4, c5, 1);
    InsertAfter(n2, a, v, c4, c5, 2);
    if a.d == 1 {
      InsertAfter(n3, a, v, c4, c5, 3);
    }
    if v.c3.Insert? {
      SeenLate(a, v, c4, c5, n0, n1, n2, n3);
    } else {
      SeenEarly(a, v, c4, c5, n0, n1, n2, n3);
    }
  }

  lemma SeenLate(a: Action, v: View, c4: Cat, c5: Cat, n0: Cat, n1: Cat, n2: Cat, n3: Cat)
    requires !a.NoMatch? && TameInsert(a, v) && v.c3.Insert? && !v.c0.Insert? && !v.c1.Insert? && !v.c2.Insert?
    requires n0.Insert? <==> After(a, v, c4, c5, 0).Insert?
    requires n1.Insert? <==> After(a, v, c4, c5, 1).Insert?
    requires n2.Insert? <==> After(a, v, c4, c5, 2).Insert?
    ensures Seen(a, n0, n1, n2, n3) <==> Exposes(a, c4, c5)
  {
  }

  lemma SeenEarly(a: Action, v: View, c4: Cat, c5: Cat, n0: Cat, n1: Cat, n2: Cat, n3: Cat)
    requires !a.NoMatch? && TameInsert(a, v) && a.d <= 1 && (a.d == 1 ==> Size(a) <= 2)
    requires !v.c0.Insert? && !v.c1.Insert? && !v.c2.Insert? && !v.c3.Insert?
    requires n0.Insert? <==> After(a, v, c4, c5, 0).Insert?
    requires n1.Insert? <==> After(a, v, c4, c5, 1).Insert?
    requires n2.Insert? <==> After(a, v, c4, c5, 2).Insert?
    requires a.d == 1 ==> (n3.Insert? <==> After(a, v, c4, c5, 3).Insert?)
    ensures Seen(a, n0, n1, n2, n3) <==> Exposes(a, c4, c5)
  {
    hide *;
    InsertRange(a, v);
    InsertIs(a, v, c4, c5, 0);
    InsertIs(a, v, c4, c5, 1);
    InsertIs(a, v, c4, c5, 2);
    if Size(a) <= 2 {
      InsertIs(a, v, c4, c5, 3);
    }
    SeenCount(a.at, Size(a), a.d, a.cat.Insert?, c4.Insert?, c5.Insert?, n0.Insert?, n1.Insert?, n2.Insert?,
              n3.Insert?);
    SeenIs(a, n0, n1, n2, n3, c4, c5);
  }

  lemma InsertRange(a: Action, v: View)
    requires !a.NoMatch? && TameInsert(a, v)
    ensures Size(a) >= 1 && a.at + Size(a) <= 4 && Size(a) + a.d <= 4 && (a.cat.Insert? ==> a.d >= -1 && a.at == 0)
  {
    hide Size;
  }

  lemma SeenIs(a: Action, n0: Cat, n1: Cat, n2: Cat, n3: Cat, c4: Cat, c5: Cat)
    requires !a.NoMatch?
    ensures Seen(a, n0, n1, n2, n3) <==>
            (a.d >= -2 && n0.Insert?) || (a.d >= -1 && n1.Insert?) || (a.d >= 0 && n2.Insert?)
              || (a.d >= 1 && n3.Insert?)
    ensures Exposes(a, c4, c5) <==>
            a.cat.Insert? || (c4.Insert? && Size(a) + a.d >= 3) || (c5.Insert? && Size(a) + a.d >= 4)
  {
    hide Size;
  }

  predicate InsertIn(at: nat, size: nat, here: bool, fourth: bool, fifth: bool, i: nat) {
    (i == at && here) || (i > at && i + size == 5 && fourth) || (i > at && i + size == 6 && fifth)
  }

  lemma SeenCount(at: nat, size: nat, d: int, here: bool, fourth: bool, fifth: bool, m0: bool, m1: bool, m2: bool,
                  m3: bool)
    requires 1 <= size && at + size <= 4 && size + d <= 4 && d <= 1 && (here ==> d >= -1 && at == 0)
    requires (m0 <==> InsertIn(at, size, here, fourth, fifth, 0))
             && (m1 <==> InsertIn(at, size, here, fourth, fifth, 1))
    requires m2 <==> InsertIn(at, size, here, fourth, fifth, 2)
    requires d == 1 ==> size <= 2 && (m3 <==> InsertIn(at, size, here, fourth, fifth, 3))
    ensures (d >= -2 && m0) || (d >= -1 && m1) || (d >= 0 && m2) || (d >= 1 && m3)
            <==> here || (fourth && size + d >= 3) || (fifth && size + d >= 4)
  {
  }

  lemma InsertIs(a: Action, v: View, c4: Cat, c5: Cat, i: nat)
    requires !a.NoMatch? && i + Size(a) <= 6 && Size(a) >= 1
    requires !v.c0.Insert? && !v.c1.Insert? && !v.c2.Insert? && !v.c3.Insert?
    ensures After(a, v, c4, c5, i).Insert? <==> InsertIn(a.at, Size(a), a.cat.Insert?, c4.Insert?, c5.Insert?, i)
  {
  }

  lemma ForwardFirst(a: Action, v: View, c4: Cat, c5: Cat, n0: Cat)
    requires !a.NoMatch? && Tame(a, v) && a.d == 1 && IsAfter(n0, a, v, c4, c5, 0) && !v.c0.Insert?
    ensures !n0.Insert?
  {
    hide TameSecond, TameThird, TameFourth, TameInsert;
  }

  /** A production that passes over a match does not go back too far for it to be passed. */
  lemma PassesBack(a: Action, v: View, l3: Cat, l2: Cat, l1: Cat, c4: Cat, c5: Cat)
    requires !a.NoMatch? && Tame(a, v)
    ensures PassesOne(a.n, l1, c4, c5) ==> a.d >= 0 && !l1.Zero?
    ensures PassesTwo(a.n, l2, l1, v) ==> a.d >= -1 && !l2.Zero?
    ensures PassesThree(a.n, l3, l2, l1) ==> a.d >= -2 && !l3.Zero?
  {
    hide TameSecond, TameThird, TameLater, TameInsert, PassesOne, PassesTwo, PassesThree, Gentle, Mild;
    OnePassed(a.n, l1, c4, c5);
    TwoPassed(a.n, l2, l1, v);
    ThreePassed(a.n, l3, l2, l1);
  }

  lemma OnePassed(n: nat, l1: Cat, c4: Cat, c5: Cat)
    ensures PassesOne(n, l1, c4, c5) ==> (n == 7 || 44 <= n <= 46 || 63 <= n <= 67 || n == 101) && !l1.Zero?
  {
  }

  lemma TwoPassed(n: nat, l2: Cat, l1: Cat, v: View)
    ensures PassesTwo(n, l2, l1, v) ==> (n == 64 || n == 67 || n == 111) && !l2.Zero?
  {
  }

  lemma ThreePassed(n: nat, l3: Cat, l2: Cat, l1: Cat)
    ensures PassesThree(n, l3, l2, l1) ==> n == 13 && !l3.Zero?
  {
  }
}
