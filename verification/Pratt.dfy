/**
  Printing syntax trees with as few brackets as the binding powers allow, and the proof
  that the parser reads every printed tree back.
 */
module Pratt {
  import opened Bytecode
  import opened Syntax
  import opened Parser

  /** What the position left of a construct's operator demands of its subtree. */
  function LeftDemand(e: Expr): nat {
    match e
    case Bin(op, _, _) => BinPrec(op)
    case And(_, _) => PREC_AND + 1
    case Or(_, _) => PREC_OR + 1
    case _ => PREC_PRIMARY
  }

  /** What the last position of a construct demands of its subtree. */
  function RightDemand(e: Expr): nat {
    match e
    case Bin(op, _, _) => BinPrec(op) + 1
    case And(_, _) => PREC_AND
    case Or(_, _) => PREC_OR
    case NotE(_) => PREC_UNARY
    case NegE(_) => PREC_UNARY
    case Assign(_, _) => PREC_ASSIGNMENT
    case Update(_, _, _) => PREC_ASSIGNMENT
    case _ => PREC_PRIMARY
  }

  /** The tokens of a tree in a position that demands precedence `p`. */
  function Print(e: Expr, p: nat): seq<Token>
    decreases e, 1
  {
    if PrecOf(e) < p then [LParen] + PrintBare(e) + [RParen] else PrintBare(e)
  }

  function PrintBare(e: Expr): seq<Token>
    decreases e, 0
  {
    match e
    case Lit(l) => [LitTok(l)]
    case Var(x) => [NameTok(x)]
    case Assign(x, v) => [NameTok(x), EqualTok] + Print(v, RightDemand(e))
    case Update(x, op, v) => [NameTok(x), UpdateTok(op)] + Print(v, RightDemand(e))
    case NotE(a) => [NotTok] + Print(a, RightDemand(e))
    case NegE(a) => [BinTok(Sub)] + Print(a, RightDemand(e))
    case Bin(op, l, r) => Print(l, LeftDemand(e)) + ([BinTok(op)] + Print(r, RightDemand(e)))
    case And(l, r) => Print(l, LeftDemand(e)) + ([AndTok] + Print(r, RightDemand(e)))
    case Or(l, r) => Print(l, LeftDemand(e)) + ([OrTok] + Print(r, RightDemand(e)))
    case Lost(l, r) => Print(l, PREC_PRIMARY) + Print(r, PREC_PRIMARY)
  }

  /** `part` stands at `pos` in `ts`. */
  predicate Stands(ts: seq<Token>, pos: nat, part: seq<Token>) {
    pos + |part| <= |ts| && ts[pos..pos + |part|] == part
  }

  lemma StandsApart(ts: seq<Token>, pos: nat, a: seq<Token>, b: seq<Token>)
    requires Stands(ts, pos, a + b)
    ensures Stands(ts, pos, a) && Stands(ts, pos + |a|, b)
  {
    var c := ts[pos..pos + |a + b|];
    assert c[..|a|] == a && c[|a|..] == b;
  }

  lemma StandsFirst(ts: seq<Token>, pos: nat, part: seq<Token>)
    requires Stands(ts, pos, part) && part != []
    ensures pos < |ts| && TokenAt(ts, pos) == ts[pos] == part[0]
  {
    assert ts[pos] == ts[pos..pos + |part|][0];
  }

  /** A printed tree never begins with a newline. */
  lemma {:induction false} FirstToken(e: Expr, p: nat)
    requires Clean(e)
    ensures Print(e, p) != [] && Print(e, p)[0] != Line
    ensures PrintBare(e) != [] && PrintBare(e)[0] != Line
  {
    match e
    case Bin(_, l, _) => FirstToken(l, LeftDemand(e));
    case And(l, _) => FirstToken(l, LeftDemand(e));
    case Or(l, _) => FirstToken(l, LeftDemand(e));
    case _ =>
  }

  /**
    The token behind a printed tree does not continue it: it binds more loosely than the
    last operand of the tree demands, and a variable is not followed by what would make it
    an assignment target.
   */
  predicate Ends(e: Expr, next: Token) {
    Prec(next) < RightDemand(e) && !IsAssignTok(next) && next != LSquare && next != Arrow
  }

  /** Parsing goes on with the operators behind a prefix construct. */
  lemma FromPrefix(ts: seq<Token>, pos: nat, q: nat, e: Expr, stop: nat)
    requires pos < |ts| && ParsePrefix(ts, pos, q <= PREC_ASSIGNMENT) == GoodExpr(e, stop)
    ensures ParsePrec(ts, pos, q) == AfterInfix(ts, ParseInfix(ts, stop, q, e), q)
  {
  }

  /**
    The heart of the matter: reading a printed tree, in any position that demands no more
    than the printing assumed, is the same as having the tree in hand and going on with the
    operators behind it.
   */
  lemma {:induction false} ReadPrinted(ts: seq<Token>, pos: nat, e: Expr, p: nat, q: nat)
    requires Clean(e) && PREC_ASSIGNMENT <= q <= p <= PREC_PRIMARY
    requires Stands(ts, pos, Print(e, p))
    requires PrecOf(e) < p || Ends(e, TokenAt(ts, pos + |Print(e, p)|))
    ensures ParsePrec(ts, pos, q) == AfterInfix(ts, ParseInfix(ts, pos + |Print(e, p)|, q, e), q)
    decreases e, 4
  {
    if PrecOf(e) < p {
      ReadBracketed(ts, pos, e, q <= PREC_ASSIGNMENT);
      FromPrefix(ts, pos, q, e, pos + |Print(e, p)|);
    } else {
      ReadBare(ts, pos, e, q);
    }
  }

  lemma {:induction false} ReadBracketed(ts: seq<Token>, pos: nat, e: Expr, assignable: bool)
    requires Clean(e)
    requires Stands(ts, pos, [LParen] + PrintBare(e) + [RParen])
    ensures ParsePrefix(ts, pos, assignable) == GoodExpr(e, pos + |PrintBare(e)| + 2)
    decreases e, 3
  {
    hide ParsePrec, ParsePrefix, ParseInfix, SkipLines, PrintBare, Print, Stands;
    var bare := PrintBare(e);
    StandsApart(ts, pos, [LParen] + bare, [RParen]);
    StandsApart(ts, pos, [LParen], bare);
    var open, close := pos + 1, pos + 1 + |bare|;
    StandsFirst(ts, pos, [LParen]);
    StandsFirst(ts, close, [RParen]);
    FirstToken(e, PREC_ASSIGNMENT);
    StandsFirst(ts, open, bare);
    ReadBare(ts, open, e, PREC_ASSIGNMENT);
    InfixStops(ts, close, PREC_ASSIGNMENT, e);
    Bracket(ts, pos, e, close, assignable);
  }

  lemma InfixStops(ts: seq<Token>, pos: nat, q: nat, e: Expr)
    requires pos <= |ts| && Prec(TokenAt(ts, pos)) < q
    ensures ParseInfix(ts, pos, q, e) == GoodExpr(e, pos)
  {
  }

  lemma Bracket(ts: seq<Token>, pos: nat, e: Expr, close: nat, assignable: bool)
    requires pos < close < |ts| && ts[pos] == LParen && ts[close] == RParen
    requires SkipLines(ts, pos + 1) == pos + 1
    requires ParsePrec(ts, pos + 1, PREC_ASSIGNMENT) == GoodExpr(e, close)
    ensures ParsePrefix(ts, pos, assignable) == GoodExpr(e, close + 1)
  {
  }

  lemma {:induction false} ReadBare(ts: seq<Token>, pos: nat, e: Expr, q: nat)
    requires Clean(e) && PREC_ASSIGNMENT <= q <= PrecOf(e)
    requires Stands(ts, pos, PrintBare(e))
    requires Ends(e, TokenAt(ts, pos + |PrintBare(e)|))
    ensures ParsePrec(ts, pos, q) == AfterInfix(ts, ParseInfix(ts, pos + |PrintBare(e)|, q, e), q)
    decreases e, 2
  {
    hide ParsePrec, ParsePrefix, ParseNamed, ParseInfix, SkipLines;
    if e.Bin? {
      ReadInfix(ts, pos, e, q, BinTok(e.op), e.left, e.right);
    } else if e.And? {
      ReadInfix(ts, pos, e, q, AndTok, e.left, e.right);
    } else if e.Or? {
      ReadInfix(ts, pos, e, q, OrTok, e.left, e.right);
    } else {
      ReadPrefix(ts, pos, e, q <= PREC_ASSIGNMENT);
      FromPrefix(ts, pos, q, e, pos + |PrintBare(e)|);
    }
  }

  /** Literals, names, assignments and unary operators are read by a prefix rule alone. */
  lemma {:induction false} ReadPrefix(ts: seq<Token>, pos: nat, e: Expr, assignable: bool)
    requires Clean(e) && !e.Bin? && !e.And? && !e.Or?
    requires PrecOf(e) <= PREC_ASSIGNMENT ==> assignable
    requires Stands(ts, pos, PrintBare(e))
    requires Ends(e, TokenAt(ts, pos + |PrintBare(e)|))
    ensures ParsePrefix(ts, pos, assignable) == GoodExpr(e, pos + |PrintBare(e)|)
    decreases e, 1
  {
    hide ParsePrec, ParsePrefix, ParseNamed, ParseInfix, SkipLines, Print, Stands;
    FirstToken(e, PREC_ASSIGNMENT);
    StandsFirst(ts, pos, PrintBare(e));
    match e
    case Lit(l) => LiteralRule(ts, pos, l, assignable);
    case Var(x) => VariableRule(ts, pos, x, assignable);
    case Assign(x, v) => ReadAssign(ts, pos, e, EqualTok);
    case Update(x, op, v) => ReadAssign(ts, pos, e, UpdateTok(op));
    case NotE(a) => ReadUnary(ts, pos, e, NotTok);
    case NegE(a) => ReadUnary(ts, pos, e, BinTok(Sub));
  }

  lemma {:induction false} ReadAssign(ts: seq<Token>, pos: nat, e: Expr, sign: Token)
    requires (e.Assign? && sign == EqualTok) || (e.Update? && sign == UpdateTok(e.op))
    requires Clean(e.value) && Ends(e, TokenAt(ts, pos + |PrintBare(e)|))
    requires Stands(ts, pos, [NameTok(e.target), sign] + Print(e.value, PREC_ASSIGNMENT))
    ensures ParsePrefix(ts, pos, true) == GoodExpr(e, pos + |PrintBare(e)|)
    decreases e, 0
  {
    hide ParsePrec, ParsePrefix, ParseNamed, ParseInfix, SkipLines, Print, Stands;
    ReadTail(ts, pos, e, [NameTok(e.target), sign], e.value);
    AssignRule(ts, pos, e.target, sign, e.value, pos + |PrintBare(e)|);
  }

  lemma {:induction false} ReadUnary(ts: seq<Token>, pos: nat, e: Expr, sign: Token)
    requires (e.NotE? && sign == NotTok) || (e.NegE? && sign == BinTok(Sub))
    requires Clean(e.operand) && Ends(e, TokenAt(ts, pos + |PrintBare(e)|))
    requires Stands(ts, pos, [sign] + Print(e.operand, PREC_UNARY))
    ensures forall assignable :: ParsePrefix(ts, pos, assignable) == GoodExpr(e, pos + |PrintBare(e)|)
    decreases e, 0
  {
    hide ParsePrec, ParsePrefix, ParseNamed, ParseInfix, SkipLines, Print, Stands;
    StandsFirst(ts, pos, [sign] + Print(e.operand, PREC_UNARY));
    ReadTail(ts, pos, e, [sign], e.operand);
    forall assignable
      ensures ParsePrefix(ts, pos, assignable) == GoodExpr(e, pos + |PrintBare(e)|)
    {
      UnaryRule(ts, pos, e.operand, pos + |PrintBare(e)|, assignable);
    }
  }

  lemma LiteralRule(ts: seq<Token>, pos: nat, l: Literal, assignable: bool)
    requires pos < |ts| && ts[pos] == LitTok(l)
    ensures ParsePrefix(ts, pos, assignable) == GoodExpr(Lit(l), pos + 1)
  {
  }

  lemma VariableRule(ts: seq<Token>, pos: nat, x: string, assignable: bool)
    requires pos < |ts| && ts[pos] == NameTok(x)
    requires var t := TokenAt(ts, pos + 1); !IsAssignTok(t) && t != LSquare && t != Arrow
    ensures ParsePrefix(ts, pos, assignable) == GoodExpr(Var(x), pos + 1)
  {
    assert ParseNamed(ts, pos + 1, x, assignable) == GoodExpr(Var(x), pos + 1);
  }

  lemma AssignRule(ts: seq<Token>, pos: nat, x: string, sign: Token, v: Expr, stop: nat)
    requires pos + 2 <= |ts| && ts[pos..pos + 2] == [NameTok(x), sign] && IsAssignTok(sign)
    requires SkipLines(ts, pos + 2) == pos + 2
    requires ParsePrec(ts, pos + 2, PREC_ASSIGNMENT) == GoodExpr(v, stop)
    ensures ParsePrefix(ts, pos, true) ==
            GoodExpr(if sign == EqualTok then Assign(x, v) else Update(x, sign.op, v), stop)
  {
    assert ts[pos] == ts[pos..pos + 2][0] && ts[pos + 1] == ts[pos..pos + 2][1];
    assert ParseNamed(ts, pos + 1, x, true) ==
           GoodExpr(if sign == EqualTok then Assign(x, v) else Update(x, sign.op, v), stop);
  }

  lemma UnaryRule(ts: seq<Token>, pos: nat, a: Expr, stop: nat, assignable: bool)
    requires pos < |ts| && (ts[pos] == NotTok || ts[pos] == BinTok(Sub))
    requires ParsePrec(ts, pos + 1, PREC_UNARY) == GoodExpr(a, stop)
    ensures ParsePrefix(ts, pos, assignable) == GoodExpr(if ts[pos] == NotTok then NotE(a) else NegE(a), stop)
  {
  }

  /** The last operand of a construct is read completely and alone. */
  lemma {:induction false} ReadTail(ts: seq<Token>, pos: nat, e: Expr, head: seq<Token>, last: Expr)
    requires Clean(last) && last < e && RightDemand(e) <= PREC_CALL && Line !in head
    requires Stands(ts, pos, head + Print(last, RightDemand(e)))
    requires Ends(e, TokenAt(ts, pos + |head| + |Print(last, RightDemand(e))|))
    ensures var at := pos + |head|;
            && ts[pos..at] == head
            && SkipLines(ts, at) == at
            && ParsePrec(ts, at, RightDemand(e)) == GoodExpr(last, at + |Print(last, RightDemand(e))|)
    decreases last, 5
  {
    hide ParsePrec, ParsePrefix, ParseNamed, ParseInfix, Print;
    var d := RightDemand(e);
    var at := pos + |head|;
    StandsApart(ts, pos, head, Print(last, d));
    FirstToken(last, d);
    assert ts[at..at + |Print(last, d)|][0] == ts[at];
    ReadPrinted(ts, at, last, d, d);
    InfixStops(ts, at + |Print(last, d)|, d, last);
  }

  /** One round of the infix loop, the right operand being known. */
  lemma StepInfix(ts: seq<Token>, at: nat, q: nat, t: Token, l: Expr, r: Expr, stop: nat)
    requires at < |ts| && ts[at] == t && PREC_ASSIGNMENT <= q <= Prec(t) && SkipLines(ts, at + 1) == at + 1
    requires t.BinTok? || t == AndTok || t == OrTok
    requires ParsePrec(ts, at + 1, if t.BinTok? then Prec(t) + 1 else Prec(t)) == GoodExpr(r, stop)
    ensures ParseInfix(ts, at, q, l) == ParseInfix(ts, stop, q, Joined(t, l, r))
  {
  }

  function Joined(t: Token, l: Expr, r: Expr): Expr
    requires t.BinTok? || t == AndTok || t == OrTok
  {
    match t
    case BinTok(op) => Bin(op, l, r)
    case AndTok => And(l, r)
    case OrTok => Or(l, r)
  }

  lemma {:induction false} ReadInfix(ts: seq<Token>, pos: nat, e: Expr, q: nat, t: Token, l: Expr, r: Expr)
    requires t.BinTok? || t == AndTok || t == OrTok
    requires e == Joined(t, l, r) && Clean(l) && Clean(r) && PREC_ASSIGNMENT <= q <= Prec(t)
    requires Stands(ts, pos, PrintBare(e))
    requires Ends(e, TokenAt(ts, pos + |PrintBare(e)|))
    ensures ParsePrec(ts, pos, q) == AfterInfix(ts, ParseInfix(ts, pos + |PrintBare(e)|, q, e), q)
    decreases e, 0
  {
    hide ParsePrec, ParsePrefix, ParseInfix, SkipLines, Print, PrintBare, Clean, Stands;
    InfixPrint(t, l, r);
    EndsLeft(t, l, r);
    var left, right := Print(l, LeftDemand(e)), [t] + Print(r, RightDemand(e));
    StandsApart(ts, pos, left, right);
    var at := pos + |left|;
    StandsFirst(ts, at, right);
    ReadPrinted(ts, pos, l, LeftDemand(e), q);
    ReadTail(ts, at, e, [t], r);
    StepInfix(ts, at, q, t, l, r, at + |right|);
  }

  lemma InfixPrint(t: Token, l: Expr, r: Expr)
    requires t.BinTok? || t == AndTok || t == OrTok
    ensures var e := Joined(t, l, r);
            PrintBare(e) == Print(l, LeftDemand(e)) + ([t] + Print(r, RightDemand(e)))
  {
  }

  /** An operator does not continue an operand that was printed in front of it. */
  lemma EndsLeft(t: Token, l: Expr, r: Expr)
    requires t.BinTok? || t == AndTok || t == OrTok
    requires Clean(l)
    ensures PrecOf(l) < LeftDemand(Joined(t, l, r)) || Ends(l, t)
  {
  }

  /**
    Every tree, printed for a position of precedence `p` and followed by a token that does
    not continue it, drives the parser through exactly that tree.
   */
  lemma PrattRoundTrip(ts: seq<Token>, pos: nat, e: Expr, p: nat)
    requires Clean(e) && PREC_ASSIGNMENT <= p <= PREC_PRIMARY
    requires Stands(ts, pos, Print(e, p))
    requires var next := TokenAt(ts, pos + |Print(e, p)|);
             Prec(next) < p && !IsAssignTok(next) && next != LSquare && next != Arrow
    requires PrecOf(e) >= p ==> Prec(TokenAt(ts, pos + |Print(e, p)|)) < RightDemand(e)
    ensures ParsePrec(ts, pos, p) == GoodExpr(e, pos + |Print(e, p)|)
  {
    ReadPrinted(ts, pos, e, p, p);
  }
}
