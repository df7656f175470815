/**
  How expressions of several operators are read, by the classes the operators fall into:
  which of two binds more tightly, and to which side operators of one class group.
 */
module Precedence {
  import opened Bytecode
  import opened Syntax
  import opened Parser
  import opened Pratt

  const POWERS: set<BinOp> := {Pow}
  const FACTORS: set<BinOp> := {Mul, Div, Mod}
  const TERMS: set<BinOp> := {Add, Sub, Concat}
  const COMPARISONS: set<BinOp> := {Less, LessEq, Greater, GreaterEq, Contain}
  const EQUALITIES: set<BinOp> := {Equal, NotEq}

  /** The first operator stands in a tighter class than the second. */
  predicate Tighter(o: BinOp, than: BinOp) {
    || (o in POWERS && than !in POWERS)
    || (o in FACTORS && than in TERMS + COMPARISONS + EQUALITIES)
    || (o in TERMS && than in COMPARISONS + EQUALITIES)
    || (o in COMPARISONS && than in EQUALITIES)
  }

  /** Every operator stands in one class. */
  lemma ClassesCover(o: BinOp)
    ensures o in POWERS || o in FACTORS || o in TERMS || o in COMPARISONS || o in EQUALITIES
  {
  }

  predicate IsAtom(e: Expr) {
    e.Lit? || e.Var?
  }

  function Word(e: Expr): Token
    requires IsAtom(e)
  {
    if e.Lit? then LitTok(e.literal) else NameTok(e.name)
  }

  predicate IsNode(e: Expr) {
    e.Bin? || e.And? || e.Or?
  }

  function Sign(e: Expr): Token
    requires IsNode(e)
  {
    match e case Bin(op, _, _) => BinTok(op) case And(_, _) => AndTok case Or(_, _) => OrTok
  }

  lemma PrintAtom(a: Expr, p: nat)
    requires IsAtom(a) && p <= PREC_PRIMARY
    ensures Clean(a) && Print(a, p) == [Word(a)]
  {
  }

  /** Two atoms under one operator. */
  lemma PrintNode(e: Expr, p: nat)
    requires IsNode(e) && IsAtom(e.left) && IsAtom(e.right) && p <= PrecOf(e)
    ensures Clean(e) && Print(e, p) == [Word(e.left), Sign(e), Word(e.right)]
  {
    PrintAtom(e.left, LeftDemand(e));
    PrintAtom(e.right, RightDemand(e));
  }

  lemma ReadLeft(e: Expr)
    requires IsNode(e) && IsNode(e.left) && IsAtom(e.left.left) && IsAtom(e.left.right) && IsAtom(e.right)
    requires LeftDemand(e) <= PrecOf(e.left)
    ensures ParseExpr([Word(e.left.left), Sign(e.left), Word(e.left.right), Sign(e), Word(e.right), Line], 0) == GoodExpr(e, 5)
  {
    hide ParsePrec;
    PrintNode(e.left, LeftDemand(e));
    PrintAtom(e.right, RightDemand(e));
    assert Print(e, PREC_ASSIGNMENT) == [Word(e.left.left), Sign(e.left), Word(e.left.right)] + ([Sign(e)] + [Word(e.right)]);
    ReadLineOf([Word(e.left.left), Sign(e.left), Word(e.left.right), Sign(e), Word(e.right), Line], e);
  }

  lemma ReadRight(e: Expr)
    requires IsNode(e) && IsNode(e.right) && IsAtom(e.left) && IsAtom(e.right.left) && IsAtom(e.right.right)
    requires RightDemand(e) <= PrecOf(e.right)
    ensures ParseExpr([Word(e.left), Sign(e), Word(e.right.left), Sign(e.right), Word(e.right.right), Line], 0) == GoodExpr(e, 5)
  {
    hide ParsePrec;
    PrintAtom(e.left, LeftDemand(e));
    PrintNode(e.right, RightDemand(e));
    assert Print(e, PREC_ASSIGNMENT) == [Word(e.left)] + ([Sign(e)] + [Word(e.right.left), Sign(e.right), Word(e.right.right)]);
    ReadLineOf([Word(e.left), Sign(e), Word(e.right.left), Sign(e.right), Word(e.right.right), Line], e);
  }

  /** A unary operator in front of an operator. */
  lemma ReadUnary(e: Expr, first: Token)
    requires (e.NotE? && first == NotTok) || (e.NegE? && first == BinTok(Sub))
    requires IsNode(e.operand) && IsAtom(e.operand.left) && IsAtom(e.operand.right) && RightDemand(e) <= PrecOf(e.operand)
    ensures ParseExpr([first, Word(e.operand.left), Sign(e.operand), Word(e.operand.right), Line], 0) == GoodExpr(e, 4)
  {
    hide ParsePrec;
    PrintNode(e.operand, RightDemand(e));
    assert Print(e, PREC_ASSIGNMENT) == [first] + [Word(e.operand.left), Sign(e.operand), Word(e.operand.right)];
    ReadLineOf([first, Word(e.operand.left), Sign(e.operand), Word(e.operand.right), Line], e);
  }

  lemma ReadUnaryLeft(e: Expr, first: Token)
    requires IsNode(e) && ((e.left.NotE? && first == NotTok) || (e.left.NegE? && first == BinTok(Sub)))
    requires IsAtom(e.left.operand) && IsAtom(e.right) && LeftDemand(e) <= PrecOf(e.left)
    ensures ParseExpr([first, Word(e.left.operand), Sign(e), Word(e.right), Line], 0) == GoodExpr(e, 4)
  {
    hide ParsePrec;
    PrintAtom(e.left.operand, RightDemand(e.left));
    PrintAtom(e.right, RightDemand(e));
    assert Print(e.left, LeftDemand(e)) == [first] + [Word(e.left.operand)];
    assert Print(e, PREC_ASSIGNMENT) == ([first] + [Word(e.left.operand)]) + ([Sign(e)] + [Word(e.right)]);
    ReadLineOf([first, Word(e.left.operand), Sign(e), Word(e.right), Line], e);
  }

  /** An assignment of an operator. */
  lemma ReadAssignment(e: Expr, second: Token)
    requires (e.Assign? && second == EqualTok) || (e.Update? && second == UpdateTok(e.op) && HasUpdate(e.op))
    requires IsNode(e.value) && IsAtom(e.value.left) && IsAtom(e.value.right)
    ensures ParseExpr([NameTok(e.target), second, Word(e.value.left), Sign(e.value), Word(e.value.right), Line], 0) == GoodExpr(e, 5)
  {
    hide ParsePrec;
    PrintNode(e.value, RightDemand(e));
    assert Print(e, PREC_ASSIGNMENT) == [NameTok(e.target), second] + [Word(e.value.left), Sign(e.value), Word(e.value.right)];
    ReadLineOf([NameTok(e.target), second, Word(e.value.left), Sign(e.value), Word(e.value.right), Line], e);
  }

  /** A printed tree in front of a newline is read as itself. */
  lemma ReadLineOf(ts: seq<Token>, e: Expr)
    requires Clean(e) && ts == Print(e, PREC_ASSIGNMENT) + [Line]
    ensures ParseExpr(ts, 0) == GoodExpr(e, |ts| - 1)
  {
    hide ParsePrec, Print;
    var n := |Print(e, PREC_ASSIGNMENT)|;
    assert ts[0..n] == Print(e, PREC_ASSIGNMENT) && TokenAt(ts, n) == Line;
    DemandsSomething(e);
    PrattRoundTrip(ts, 0, e, PREC_ASSIGNMENT);
  }

  lemma DemandsSomething(e: Expr)
    ensures RightDemand(e) > PREC_NONE
  {
  }

  /**
    Of two operators the one in the tighter class is applied first, wherever it stands; of
    the same class, the first one.
   */
  lemma TwoOperators(a: Expr, o1: BinOp, b: Expr, o2: BinOp, c: Expr)
    requires IsAtom(a) && IsAtom(b) && IsAtom(c)
    ensures ParseExpr([Word(a), BinTok(o1), Word(b), BinTok(o2), Word(c), Line], 0) ==
      GoodExpr(if Tighter(o2, o1) then Bin(o1, a, Bin(o2, b, c)) else Bin(o2, Bin(o1, a, b), c), 5)
  {
    hide ParsePrec;
    if Tighter(o2, o1) {
      ReadRight(Bin(o1, a, Bin(o2, b, c)));
    } else {
      ReadLeft(Bin(o2, Bin(o1, a, b), c));
    }
  }

  /** All binary operators bind more tightly than `and` and `or`. */
  lemma LogicIsLooser(a: Expr, o: BinOp, b: Expr, c: Expr)
    requires IsAtom(a) && IsAtom(b) && IsAtom(c)
    ensures ParseExpr([Word(a), BinTok(o), Word(b), AndTok, Word(c), Line], 0) == GoodExpr(And(Bin(o, a, b), c), 5)
    ensures ParseExpr([Word(a), AndTok, Word(b), BinTok(o), Word(c), Line], 0) == GoodExpr(And(a, Bin(o, b, c)), 5)
    ensures ParseExpr([Word(a), BinTok(o), Word(b), OrTok, Word(c), Line], 0) == GoodExpr(Or(Bin(o, a, b), c), 5)
    ensures ParseExpr([Word(a), OrTok, Word(b), BinTok(o), Word(c), Line], 0) == GoodExpr(Or(a, Bin(o, b, c)), 5)
  {
    hide ParsePrec;
    ReadLeft(And(Bin(o, a, b), c));
    ReadRight(And(a, Bin(o, b, c)));
    ReadLeft(Or(Bin(o, a, b), c));
    ReadRight(Or(a, Bin(o, b, c)));
  }

  /** `and` binds more tightly than `or`; each groups to the right. */
  lemma AndInsideOr(a: Expr, b: Expr, c: Expr)
    requires IsAtom(a) && IsAtom(b) && IsAtom(c)
    ensures ParseExpr([Word(a), AndTok, Word(b), OrTok, Word(c), Line], 0) == GoodExpr(Or(And(a, b), c), 5)
    ensures ParseExpr([Word(a), OrTok, Word(b), AndTok, Word(c), Line], 0) == GoodExpr(Or(a, And(b, c)), 5)
    ensures ParseExpr([Word(a), AndTok, Word(b), AndTok, Word(c), Line], 0) == GoodExpr(And(a, And(b, c)), 5)
    ensures ParseExpr([Word(a), OrTok, Word(b), OrTok, Word(c), Line], 0) == GoodExpr(Or(a, Or(b, c)), 5)
  {
    hide ParsePrec;
    ReadLeft(Or(And(a, b), c));
    ReadRight(Or(a, And(b, c)));
    ReadRight(And(a, And(b, c)));
    ReadRight(Or(a, Or(b, c)));
  }

  /** What stands in brackets comes first. */
  lemma BracketsFirst(a: Expr, o1: BinOp, b: Expr, o2: BinOp, c: Expr)
    requires IsAtom(a) && IsAtom(b) && IsAtom(c)
    ensures ParseExpr([LParen, Word(a), BinTok(o1), Word(b), RParen, BinTok(o2), Word(c), Line], 0) ==
      GoodExpr(Bin(o2, Bin(o1, a, b), c), 7)
    ensures ParseExpr([Word(a), BinTok(o1), LParen, Word(b), BinTok(o2), Word(c), RParen, Line], 0) ==
      GoodExpr(Bin(o1, a, Bin(o2, b, c)), 7)
  {
    hide ParsePrec;
    LeftBracket(a, o1, b, o2, c);
    RightBracket(a, o1, b, o2, c);
  }

  lemma Bracketed(ts: seq<Token>, pos: nat, e: Expr)
    requires IsNode(e) && IsAtom(e.left) && IsAtom(e.right) && pos + 5 <= |ts|
    requires ts[pos..pos + 5] == [LParen, Word(e.left), Sign(e), Word(e.right), RParen]
    ensures forall assignable :: ParsePrefix(ts, pos, assignable) == GoodExpr(e, pos + 5)
  {
    hide ParsePrec, Print;
    ghost var s := ts[pos..pos + 5];
    assert ts[pos] == s[0] && ts[pos + 1] == s[1] && ts[pos + 2] == s[2] && ts[pos + 3] == s[3] && ts[pos + 4] == s[4];
    PrintNode(e, PREC_ASSIGNMENT);
    assert ts[pos + 1..pos + 4] == [Word(e.left), Sign(e), Word(e.right)];
    NoLine(e.left);
    DemandsSomething(e);
    PrattRoundTrip(ts, pos + 1, e, PREC_ASSIGNMENT);
  }

  lemma LeftBracket(a: Expr, o1: BinOp, b: Expr, o2: BinOp, c: Expr)
    requires IsAtom(a) && IsAtom(b) && IsAtom(c)
    ensures ParseExpr([LParen, Word(a), BinTok(o1), Word(b), RParen, BinTok(o2), Word(c), Line], 0) ==
      GoodExpr(Bin(o2, Bin(o1, a, b), c), 7)
  {
    var ts, l := [LParen, Word(a), BinTok(o1), Word(b), RParen, BinTok(o2), Word(c), Line], Bin(o1, a, b);
    hide ParsePrefix;
    Bracketed(ts, 0, l);
    NoLine(c);
    OneAtom(ts, 6, c, BinPrec(o2) + 1);
    assert SkipLines(ts, 6) == 6;
    assert ParseInfix(ts, 7, PREC_ASSIGNMENT, Bin(o2, l, c)) == GoodExpr(Bin(o2, l, c), 7);
    assert ParseInfix(ts, 5, PREC_ASSIGNMENT, l) == GoodExpr(Bin(o2, l, c), 7);
    assert ts[0..5] == [LParen, Word(l.left), Sign(l), Word(l.right), RParen];
    assert ParsePrefix(ts, 0, true) == GoodExpr(l, 5);
    assert AfterInfix(ts, GoodExpr(Bin(o2, l, c), 7), PREC_ASSIGNMENT) == GoodExpr(Bin(o2, l, c), 7);
  }

  lemma RightBracket(a: Expr, o1: BinOp, b: Expr, o2: BinOp, c: Expr)
    requires IsAtom(a) && IsAtom(b) && IsAtom(c)
    ensures ParseExpr([Word(a), BinTok(o1), LParen, Word(b), BinTok(o2), Word(c), RParen, Line], 0) ==
      GoodExpr(Bin(o1, a, Bin(o2, b, c)), 7)
  {
    var ts, e := [Word(a), BinTok(o1), LParen, Word(b), BinTok(o2), Word(c), RParen, Line], Bin(o2, b, c);
    var p := BinPrec(o1) + 1;
    AtomPrefix(ts, 0, a);
    hide ParsePrefix;
    Bracketed(ts, 2, e);
    assert SkipLines(ts, 2) == 2;
    assert ParseInfix(ts, 7, p, e) == GoodExpr(e, 7);
    assert ParsePrec(ts, 2, p) == GoodExpr(e, 7);
    assert ParseInfix(ts, 7, PREC_ASSIGNMENT, Bin(o1, a, e)) == GoodExpr(Bin(o1, a, e), 7);
    assert ParseInfix(ts, 1, PREC_ASSIGNMENT, a) == GoodExpr(Bin(o1, a, e), 7);
  }

  lemma NoLine(a: Expr)
    requires IsAtom(a)
    ensures Word(a) != Line
  {
  }

  lemma OneAtom(ts: seq<Token>, pos: nat, a: Expr, p: nat)
    requires pos < |ts| && IsAtom(a) && ts[pos] == Word(a) && TokenAt(ts, pos + 1) == Line && p > PREC_ASSIGNMENT
    ensures ParsePrec(ts, pos, p) == GoodExpr(a, pos + 1)
  {
    assert ParsePrefix(ts, pos, false) == GoodExpr(a, pos + 1);
    assert ParseInfix(ts, pos + 1, p, a) == GoodExpr(a, pos + 1);
  }

  /** A unary operator binds more tightly than all but powers. */
  lemma UnaryFirst(a: Expr, o: BinOp, b: Expr)
    requires IsAtom(a) && IsAtom(b)
    ensures ParseExpr([BinTok(Sub), Word(a), BinTok(o), Word(b), Line], 0) ==
      GoodExpr(if o in POWERS then NegE(Bin(o, a, b)) else Bin(o, NegE(a), b), 4)
    ensures ParseExpr([NotTok, Word(a), BinTok(o), Word(b), Line], 0) ==
      GoodExpr(if o in POWERS then NotE(Bin(o, a, b)) else Bin(o, NotE(a), b), 4)
    ensures ParseExpr([NotTok, Word(a), AndTok, Word(b), Line], 0) == GoodExpr(And(NotE(a), b), 4)
    ensures ParseExpr([NotTok, Word(a), OrTok, Word(b), Line], 0) == GoodExpr(Or(NotE(a), b), 4)
  {
    hide ParsePrec;
    if o in POWERS {
      ReadUnary(NegE(Bin(o, a, b)), BinTok(Sub));
      ReadUnary(NotE(Bin(o, a, b)), NotTok);
    } else {
      ReadUnaryLeft(Bin(o, NegE(a), b), BinTok(Sub));
      ReadUnaryLeft(Bin(o, NotE(a), b), NotTok);
    }
    ReadUnaryLeft(And(NotE(a), b), NotTok);
    ReadUnaryLeft(Or(NotE(a), b), NotTok);
  }

  /** An assignment takes all that follows for its value, another assignment included, and cannot be an operand. */
  lemma AssignmentLast(x: string, y: string, a: Expr, o: BinOp, b: Expr, u: BinOp)
    requires IsAtom(a) && IsAtom(b) && HasUpdate(u)
    ensures ParseExpr([NameTok(x), EqualTok, Word(a), BinTok(o), Word(b), Line], 0) == GoodExpr(Assign(x, Bin(o, a, b)), 5)
    ensures ParseExpr([NameTok(x), EqualTok, Word(a), AndTok, Word(b), Line], 0) == GoodExpr(Assign(x, And(a, b)), 5)
    ensures ParseExpr([NameTok(x), EqualTok, Word(a), OrTok, Word(b), Line], 0) == GoodExpr(Assign(x, Or(a, b)), 5)
    ensures ParseExpr([NameTok(x), UpdateTok(u), Word(a), BinTok(o), Word(b), Line], 0) == GoodExpr(Update(x, u, Bin(o, a, b)), 5)
    ensures ParseExpr([NameTok(x), EqualTok, NameTok(y), EqualTok, Word(a), Line], 0) == GoodExpr(Assign(x, Assign(y, a)), 5)
    ensures ParseExpr([Word(a), BinTok(o), NameTok(x), EqualTok, Word(b), Line], 0) == BadExpr(false)
  {
    hide ParsePrec;
    ReadAssignment(Assign(x, Bin(o, a, b)), EqualTok);
    ReadAssignment(Assign(x, And(a, b)), EqualTok);
    ReadAssignment(Assign(x, Or(a, b)), EqualTok);
    ReadAssignment(Update(x, u, Bin(o, a, b)), UpdateTok(u));
    PrintAtom(a, RightDemand(Assign(y, a)));
    var inner := Assign(y, a);
    assert Print(inner, RightDemand(Assign(x, inner))) == [NameTok(y), EqualTok] + [Word(a)];
    assert Print(Assign(x, inner), PREC_ASSIGNMENT) == [NameTok(x), EqualTok] + ([NameTok(y), EqualTok] + [Word(a)]);
    ReadLineOf([NameTok(x), EqualTok, NameTok(y), EqualTok, Word(a), Line], Assign(x, inner));
    NoTarget(x, a, o, b);
  }

  lemma NoTarget(x: string, a: Expr, o: BinOp, b: Expr)
    requires IsAtom(a) && IsAtom(b)
    ensures ParseExpr([Word(a), BinTok(o), NameTok(x), EqualTok, Word(b), Line], 0) == BadExpr(false)
  {
    var ts := [Word(a), BinTok(o), NameTok(x), EqualTok, Word(b), Line];
    var p := BinPrec(o) + 1;
    assert SkipLines(ts, 2) == 2;
    AtomPrefix(ts, 0, a);
    assert ParseNamed(ts, 3, x, false) == GoodExpr(Var(x), 3);
    assert ParsePrefix(ts, 2, false) == GoodExpr(Var(x), 3);
    assert ParseInfix(ts, 3, p, Var(x)) == GoodExpr(Var(x), 3);
    assert ParsePrec(ts, 2, p) == GoodExpr(Var(x), 3);
    assert ParseInfix(ts, 3, PREC_ASSIGNMENT, Bin(o, a, Var(x))) == GoodExpr(Bin(o, a, Var(x)), 3);
    assert ParseInfix(ts, 1, PREC_ASSIGNMENT, a) == GoodExpr(Bin(o, a, Var(x)), 3);
    assert AfterInfix(ts, GoodExpr(Bin(o, a, Var(x)), 3), PREC_ASSIGNMENT) == BadExpr(false);
  }

  lemma AtomPrefix(ts: seq<Token>, pos: nat, a: Expr)
    requires pos + 1 < |ts| && IsAtom(a) && ts[pos] == Word(a) && ts[pos + 1].BinTok?
    ensures ParsePrefix(ts, pos, true) == GoodExpr(a, pos + 1)
  {
  }
}
