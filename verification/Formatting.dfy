/**
  What the parser can return: which texts keep all of their operators, and that printing a
  parsed program is a normal form of its text.
 */
module Formatting {
  import opened Bytecode
  import opened Syntax
  import opened Semantics
  import opened CodeGen
  import opened Machine
  import opened Parser
  import opened Pratt
  import opened Printing

  /** The token at `i` is no binary operator in front of a newline, and no unknown sign. */
  predicate KeptAt(ts: seq<Token>, i: nat) {
    match TokenAt(ts, i)
    case BinTok(_) => TokenAt(ts, i + 1) != Line
    case UpdateTok(op) => HasUpdate(op)
    case _ => true
  }

  predicate Kept(ts: seq<Token>, from: nat, to: nat) {
    forall i :: from <= i < to ==> KeptAt(ts, i)
  }

  lemma KeptSplit(ts: seq<Token>, a: nat, b: nat, c: nat)
    requires a <= b <= c
    ensures Kept(ts, a, c) <==> Kept(ts, a, b) && Kept(ts, b, c)
  {
  }

  lemma {:induction false} LinesKept(ts: seq<Token>, pos: nat)
    ensures Kept(ts, pos, SkipLines(ts, pos))
    decreases |ts| - pos
  {
    if TokenAt(ts, pos) == Line {
      LinesKept(ts, pos + 1);
    }
  }

  /** A position, the newlines behind it, and what stands behind those. */
  lemma KeptBehindLines(ts: seq<Token>, pos: nat, stop: nat)
    requires SkipLines(ts, pos) <= stop
    ensures Kept(ts, pos, stop) <==> Kept(ts, SkipLines(ts, pos), stop)
  {
    LinesKept(ts, pos);
    KeptSplit(ts, pos, SkipLines(ts, pos), stop);
  }

  lemma KeptFirst(ts: seq<Token>, pos: nat, stop: nat)
    requires pos < stop
    ensures Kept(ts, pos, stop) <==> KeptAt(ts, pos) && Kept(ts, pos + 1, stop)
  {
  }

  /** An expression keeps all its operators exactly if no operator it is made of ends a line. */
  lemma {:induction false} PrecKept(ts: seq<Token>, pos: nat, prec: nat)
    requires ParsePrec(ts, pos, prec).GoodExpr?
    ensures var r := ParsePrec(ts, pos, prec); Clean(r.e) <==> Kept(ts, pos, r.next)
    decreases |ts| - pos, 2
  {
    hide Kept, ParsePrefix, ParseInfix;
    var left := ParsePrefix(ts, pos, prec <= PREC_ASSIGNMENT);
    PrefixKept(ts, pos, prec <= PREC_ASSIGNMENT);
    InfixKept(ts, left.next, prec, left.e);
    KeptSplit(ts, pos, left.next, ParsePrec(ts, pos, prec).next);
  }

  lemma {:induction false} PrefixKept(ts: seq<Token>, pos: nat, assignable: bool)
    requires pos < |ts| && ParsePrefix(ts, pos, assignable).GoodExpr?
    ensures var r := ParsePrefix(ts, pos, assignable); Clean(r.e) <==> Kept(ts, pos, r.next)
    decreases |ts| - pos, 1
  {
    hide Kept, ParsePrec, ParseNamed, SkipLines;
    var r := ParsePrefix(ts, pos, assignable);
    KeptFirst(ts, pos, r.next);
    match ts[pos]
    case LitTok(l) => KeptNone(ts, pos + 1);
    case NameTok(x) => NamedKept(ts, pos + 1, x, assignable);
    case LParen =>
      var at := SkipLines(ts, pos + 1);
      var inner := ParsePrec(ts, at, PREC_ASSIGNMENT);
      PrecKept(ts, at, PREC_ASSIGNMENT);
      KeptBehindLines(ts, pos + 1, r.next);
      KeptSplit(ts, at, inner.next, r.next);
      KeptBehindLines(ts, inner.next, r.next);
      KeptFirst(ts, r.next - 1, r.next);
      KeptNone(ts, r.next);
    case NotTok => PrecKept(ts, pos + 1, PREC_UNARY);
    case BinTok(op) => PrecKept(ts, pos + 1, PREC_UNARY); NoLeadingLine(ts, pos + 1, PREC_UNARY);
  }

  lemma KeptNone(ts: seq<Token>, pos: nat)
    ensures Kept(ts, pos, pos)
  {
  }

  lemma NoLeadingLine(ts: seq<Token>, pos: nat, prec: nat)
    requires ParsePrec(ts, pos, prec).GoodExpr?
    ensures TokenAt(ts, pos) != Line
  {
  }

  lemma {:induction false} NamedKept(ts: seq<Token>, pos: nat, x: string, assignable: bool)
    requires 0 < pos <= |ts| && ParseNamed(ts, pos, x, assignable).GoodExpr?
    ensures var r := ParseNamed(ts, pos, x, assignable); Clean(r.e) <==> Kept(ts, pos, r.next)
    decreases |ts| - pos, 3
  {
    hide Kept, ParsePrec, SkipLines;
    var r := ParseNamed(ts, pos, x, assignable);
    if r.next == pos {
      KeptNone(ts, pos);
    } else {
      KeptFirst(ts, pos, r.next);
      PrecKept(ts, SkipLines(ts, pos + 1), PREC_ASSIGNMENT);
      KeptBehindLines(ts, pos + 1, r.next);
    }
  }

  lemma {:induction false} InfixKept(ts: seq<Token>, pos: nat, prec: nat, left: Expr)
    requires pos <= |ts| && ParseInfix(ts, pos, prec, left).GoodExpr?
    ensures var r := ParseInfix(ts, pos, prec, left); Clean(r.e) <==> Clean(left) && Kept(ts, pos, r.next)
    decreases |ts| - pos, 0
  {
    hide Kept, ParsePrec, SkipLines;
    var r := ParseInfix(ts, pos, prec, left);
    if prec > Prec(TokenAt(ts, pos)) || pos == |ts| {
      KeptNone(ts, pos);
    } else {
      var t, after := ts[pos], SkipLines(ts, pos + 1);
      var lost := after != pos + 1;
      var p := match t
        case AndTok => PREC_AND
        case OrTok => PREC_OR
        case BinTok(op) => if lost then PREC_NONE + 1 else BinPrec(op) + 1
        case _ => 0;
      var e := ParsePrec(ts, after, p);
      var next := match t
        case AndTok => And(left, e.e)
        case OrTok => Or(left, e.e)
        case BinTok(op) => if lost then Lost(left, e.e) else Bin(op, left, e.e)
        case _ => left;
      PrecKept(ts, after, p);
      InfixKept(ts, e.next, prec, next);
      KeptFirst(ts, pos, r.next);
      KeptBehindLines(ts, pos + 1, r.next);
      KeptSplit(ts, after, e.next, r.next);
    }
  }

  /** What ends a statement, and then the rest, adds no operator. */
  lemma NewlineKept(ts: seq<Token>, from: nat, pos: nat)
    requires from <= pos && Newline(ts, pos).At?
    ensures Kept(ts, from, pos) <==> Kept(ts, from, Newline(ts, pos).next)
  {
    LinesKept(ts, pos + 1);
    KeptSplit(ts, from, pos, Newline(ts, pos).next);
  }

  lemma {:induction false} DeclarationKept(ts: seq<Token>, pos: nat)
    requires pos <= |ts| && ParseDeclaration(ts, pos).GoodStmt?
    ensures var r := ParseDeclaration(ts, pos); IsItem(r.s) && (CleanS(r.s) <==> Kept(ts, pos, r.next))
    decreases |ts| - pos, 1
  {
    hide Kept, ParsePrec, SkipLines, ParseStatement, ParseLet;
    var p := SkipLines(ts, pos);
    var r := ParseDeclaration(ts, pos);
    KeptBehindLines(ts, pos, r.next);
    if TokenAt(ts, p) == LetTok {
      LetKept(ts, p + 1);
      KeptFirst(ts, p, r.next);
    } else {
      StatementKept(ts, p);
    }
  }

  lemma LetKept(ts: seq<Token>, pos: nat)
    requires pos <= |ts| && ParseLet(ts, pos).GoodStmt?
    ensures var r := ParseLet(ts, pos); IsItem(r.s) && (CleanS(r.s) <==> Kept(ts, pos, r.next))
  {
    hide Kept, ParsePrec, SkipLines;
    var r := ParseLet(ts, pos);
    KeptFirst(ts, pos, r.next);
    if TokenAt(ts, pos + 1) == EqualTok {
      PrecKept(ts, pos + 2, PREC_ASSIGNMENT);
      NewlineKept(ts, pos + 2, ParseExpr(ts, pos + 2).next);
      KeptFirst(ts, pos + 1, r.next);
    } else {
      NewlineKept(ts, pos + 1, pos + 1);
      KeptNone(ts, pos + 1);
    }
  }

  lemma {:induction false} StatementKept(ts: seq<Token>, pos: nat)
    requires pos <= |ts| && ParseStatement(ts, pos).GoodStmt?
    ensures var r := ParseStatement(ts, pos); IsItem(r.s) && (CleanS(r.s) <==> Kept(ts, pos, r.next))
    decreases |ts| - pos, 0
  {
    hide Kept, ParsePrec, SkipLines, Newline, ParseBlock, ParseWhile, ParseIf, KeptAt;
    var r := ParseStatement(ts, pos);
    KeptFirst(ts, pos, r.next);
    KeptAtOther(ts, pos);
    match ts[pos]
    case WhileTok => WhileKept(ts, pos + 1);
    case BreakTok => KeptNone(ts, pos + 1);
    case SkipTok => KeptNone(ts, pos + 1);
    case IfTok => IfKept(ts, pos + 1);
    case LBrace =>
      BlockKept(ts, pos + 1);
      NewlineKept(ts, pos + 1, ParseBlock(ts, pos + 1).next);
    case _ =>
      PrecKept(ts, pos, PREC_ASSIGNMENT);
      NewlineKept(ts, pos, ParseExpr(ts, pos).next);
  }

  lemma KeptAtOther(ts: seq<Token>, pos: nat)
    ensures !TokenAt(ts, pos).BinTok? && !TokenAt(ts, pos).UpdateTok? ==> KeptAt(ts, pos)
  {
  }

  lemma {:induction false} BlockKept(ts: seq<Token>, pos: nat)
    requires pos <= |ts| && ParseBlock(ts, pos).GoodStmt?
    ensures var r := ParseBlock(ts, pos); IsList(r.s) && (CleanS(r.s) <==> Kept(ts, pos, r.next))
    decreases |ts| - pos, 2
  {
    hide Kept, ParseDeclaration;
    var r := ParseBlock(ts, pos);
    KeptFirst(ts, pos, r.next);
    if TokenAt(ts, pos) == RBrace {
      KeptNone(ts, pos + 1);
    } else {
      var at := ParseDeclaration(ts, pos).next;
      DeclarationKept(ts, pos);
      BlockKept(ts, at);
      KeptSplit(ts, pos, at, r.next);
    }
  }

  lemma {:induction false} BracedKept(ts: seq<Token>, pos: nat)
    requires pos <= |ts| && ParseBraced(ts, pos).GoodStmt?
    ensures var r := ParseBraced(ts, pos); IsList(r.s) && (CleanS(r.s) <==> Kept(ts, pos, r.next))
    decreases |ts| - pos, 3
  {
    hide Kept, ParseBlock;
    BlockKept(ts, pos + 1);
    KeptFirst(ts, pos, ParseBraced(ts, pos).next);
  }

  lemma {:induction false} WhileKept(ts: seq<Token>, pos: nat)
    requires pos <= |ts| && ParseWhile(ts, pos).GoodStmt?
    ensures var r := ParseWhile(ts, pos); IsItem(r.s) && (CleanS(r.s) <==> Kept(ts, pos, r.next))
    decreases |ts| - pos, 4
  {
    hide Kept, ParsePrec, SkipLines, Newline, ParseBraced;
    var c := ParseExpr(ts, SkipLines(ts, pos));
    var b := ParseBraced(ts, SkipLines(ts, c.next));
    PrecKept(ts, SkipLines(ts, pos), PREC_ASSIGNMENT);
    BracedKept(ts, SkipLines(ts, c.next));
    KeptBehindLines(ts, pos, c.next);
    KeptBehindLines(ts, c.next, b.next);
    KeptSplit(ts, pos, c.next, b.next);
    NewlineKept(ts, pos, b.next);
  }

  lemma {:induction false} IfKept(ts: seq<Token>, pos: nat)
    requires pos <= |ts| && ParseIf(ts, pos).GoodStmt?
    ensures var r := ParseIf(ts, pos); r.s.IfS? && IsItem(r.s) && (CleanS(r.s) <==> Kept(ts, pos, r.next))
    decreases |ts| - pos, 4
  {
    hide Kept, ParsePrec, SkipLines, ParseBraced, ParseElse;
    var c := ParseExpr(ts, pos);
    var y := ParseBraced(ts, SkipLines(ts, c.next));
    var n := ParseElse(ts, y.next);
    PrecKept(ts, pos, PREC_ASSIGNMENT);
    BracedKept(ts, SkipLines(ts, c.next));
    KeptBehindLines(ts, c.next, y.next);
    ElseKept(ts, y.next);
    KeptSplit(ts, pos, c.next, y.next);
    KeptSplit(ts, pos, y.next, n.next);
  }

  lemma {:induction false} ElseKept(ts: seq<Token>, pos: nat)
    requires pos <= |ts| && ParseElse(ts, pos).GoodStmt?
    ensures var r := ParseElse(ts, pos);
            && (IsList(r.s) || (r.s.IfS? && IsItem(r.s)))
            && (CleanS(r.s) <==> Kept(ts, pos, r.next))
    decreases |ts| - pos, 5
  {
    hide Kept, SkipLines, Newline, ParseBraced, ParseIf;
    var r := ParseElse(ts, pos);
    if TokenAt(ts, pos) != ElseTok {
      KeptNone(ts, pos);
      NewlineKept(ts, pos, pos);
    } else {
      var p := SkipLines(ts, pos + 1);
      KeptFirst(ts, pos, r.next);
      if TokenAt(ts, p) == IfTok {
        IfKept(ts, p + 1);
        KeptFirst(ts, p, r.next);
      } else {
        BracedKept(ts, p);
        NewlineKept(ts, p, ParseBraced(ts, p).next);
      }
      KeptBehindLines(ts, pos + 1, r.next);
    }
  }

  lemma {:induction false} ItemsKept(ts: seq<Token>, pos: nat)
    requires pos <= |ts| && ParseItems(ts, pos).GoodStmt?
    ensures var r := ParseItems(ts, pos);
            r.next >= pos && IsList(r.s) && (CleanS(r.s) <==> Kept(ts, pos, r.next))
    decreases |ts| - pos
  {
    hide Kept, ParseDeclaration;
    if TokenAt(ts, pos) == Eof {
      KeptNone(ts, pos);
    } else {
      var at := ParseDeclaration(ts, pos).next;
      DeclarationKept(ts, pos);
      ItemsKept(ts, at);
      KeptSplit(ts, pos, at, ParseItems(ts, at).next);
    }
  }

  /**
    A text that is accepted has lost an operator exactly if one of its operators ends a line:
    the operator is looked up after newlines have been skipped.
   */
  lemma OperatorsKept(ts: seq<Token>)
    requires ParseProgram(ts).GoodStmt?
    ensures var r := ParseProgram(ts); IsList(r.s) && (CleanS(r.s) <==> Kept(ts, 0, r.next))
  {
    hide Kept, ParseItems;
    ItemsKept(ts, SkipLines(ts, 0));
    KeptBehindLines(ts, 0, ParseProgram(ts).next);
  }

  /** Printing what was parsed is a normal form: it is parsed as the same program again. */
  lemma Reformat(ts: seq<Token>)
    requires ParseProgram(ts).GoodStmt? && Kept(ts, 0, ParseProgram(ts).next)
    ensures var s := ParseProgram(ts).s; IsList(s) && ParseProgram(PrintList(s) + [Eof]) == GoodStmt(s, |PrintList(s)|)
  {
    hide Kept, ParseProgram, PrintList;
    OperatorsKept(ts);
    ProgramRoundTrip(ParseProgram(ts).s);
  }
}
