/**
  Where the parser leaves the fragment: only at a token that begins a call, an index, a
  member, a pipe, a swap, an array or a map. Any other text is compiled or refused.
 */
module Leaving {
  import opened Bytecode
  import opened Syntax
  import opened Parser
  import opened SinglePass
  import opened EndToEnd

  /** An operand can end with this token. */
  predicate EndsOperand(t: Token) {
    t.LitTok? || t.NameTok? || t == RParen
  }

  /** An operand has to follow this token. */
  predicate AsksOperand(t: Token) {
    t.BinTok? || t.UpdateTok? || t in {LParen, NotTok, EqualTok, AndTok, OrTok, WhileTok, IfTok}
  }

  /** Such a token stands in front of this place, but for newlines. */
  predicate Asked(ts: seq<Token>, i: nat)
    requires i <= |ts|
  {
    i > 0 && if ts[i - 1] == Line then Asked(ts, i - 1) else AsksOperand(ts[i - 1])
  }

  /** A token of a construct outside of the fragment: a brace or a bracket only where it begins or continues an operand. */
  predicate Mark(ts: seq<Token>, i: nat)
    requires i < |ts|
  {
    match ts[i]
    case LSquare => true
    case Dot => true
    case Pipe => true
    case Arrow => true
    case LParen => i > 0 && EndsOperand(ts[i - 1])
    case LBrace => Asked(ts, i)
    case _ => false
  }

  predicate MarkFrom(ts: seq<Token>, from: nat) {
    exists i :: from <= i < |ts| && Mark(ts, i)
  }

  lemma Earlier(ts: seq<Token>, from: nat, to: nat)
    requires from <= to && MarkFrom(ts, to)
    ensures MarkFrom(ts, from)
  {
  }

  lemma MarkHere(ts: seq<Token>, i: nat)
    requires i < |ts| && Mark(ts, i)
    ensures MarkFrom(ts, i)
  {
  }

  lemma {:induction false} AskedBehind(ts: seq<Token>, from: nat, pos: nat)
    requires from <= pos <= |ts| && Asked(ts, pos)
    ensures SkipLines(ts, pos) <= |ts| && Asked(ts, SkipLines(ts, pos))
    decreases |ts| - pos
  {
    if TokenAt(ts, pos) == Line {
      AskedBehind(ts, from, pos + 1);
    }
  }

  /** What follows newlines behind a token that asks for an operand. */
  lemma AskedBy(ts: seq<Token>, i: nat)
    requires i < |ts| && AsksOperand(ts[i])
    ensures Asked(ts, i + 1) && SkipLines(ts, i + 1) <= |ts| && Asked(ts, SkipLines(ts, i + 1))
  {
    AskedBehind(ts, i + 1, i + 1);
  }

  /** An operand that has been read ends with such a token; one that has not been, because it is left out, has a mark. */
  predicate Explained(ts: seq<Token>, pos: nat, r: ParsedExpr) {
    match r
    case GoodExpr(_, n) => 0 < n <= |ts| && EndsOperand(ts[n - 1])
    case BadExpr(away) => away ==> MarkFrom(ts, pos)
  }

  lemma {:induction false} PrecLeaves(ts: seq<Token>, pos: nat, prec: nat)
    requires prec > 0 && pos <= |ts| && (Asked(ts, pos) || TokenAt(ts, pos) != LBrace)
    ensures Explained(ts, pos, ParsePrec(ts, pos, prec))
    decreases |ts| - pos, 2
  {
    hide ParsePrefix, ParseInfix, MarkFrom, Asked, Mark;
    if pos < |ts| {
      PrefixLeaves(ts, pos, prec <= PREC_ASSIGNMENT);
      var left := ParsePrefix(ts, pos, prec <= PREC_ASSIGNMENT);
      if left.GoodExpr? {
        InfixLeaves(ts, left.next, prec, left.e);
        if MarkFrom(ts, left.next) {
          Earlier(ts, pos, left.next);
        }
      }
    }
  }

  lemma {:induction false} PrefixLeaves(ts: seq<Token>, pos: nat, assignable: bool)
    requires pos < |ts| && (Asked(ts, pos) || ts[pos] != LBrace)
    ensures Explained(ts, pos, ParsePrefix(ts, pos, assignable))
    decreases |ts| - pos, 1
  {
    hide ParsePrec, ParseNamed, MarkFrom, Asked, SkipLines;
    match ts[pos]
    case NameTok(x) => NamedLeaves(ts, pos + 1, x, assignable); MarkLater(ts, pos, pos + 1);
    case LParen =>
      AskedBy(ts, pos);
      PrecLeaves(ts, SkipLines(ts, pos + 1), PREC_ASSIGNMENT);
      MarkLater(ts, pos, SkipLines(ts, pos + 1));
    case NotTok => AskedBy(ts, pos); PrecLeaves(ts, pos + 1, PREC_UNARY); MarkLater(ts, pos, pos + 1);
    case BinTok(_) => AskedBy(ts, pos); PrecLeaves(ts, pos + 1, PREC_UNARY); MarkLater(ts, pos, pos + 1);
    case LSquare => MarkHere(ts, pos);
    case LBrace => MarkHere(ts, pos);
    case _ =>
  }

  lemma MarkLater(ts: seq<Token>, from: nat, to: nat)
    requires from <= to
    ensures MarkFrom(ts, to) ==> MarkFrom(ts, from)
  {
  }

  lemma {:induction false} NamedLeaves(ts: seq<Token>, pos: nat, x: string, assignable: bool)
    requires 0 < pos <= |ts| && ts[pos - 1].NameTok?
    ensures Explained(ts, pos, ParseNamed(ts, pos, x, assignable))
    decreases |ts| - pos, 3
  {
    hide ParsePrec, MarkFrom, Asked, SkipLines;
    if pos < |ts| {
      if ts[pos] == LSquare || ts[pos] == Arrow {
        MarkHere(ts, pos);
      } else if IsAssignTok(ts[pos]) {
        AskedBy(ts, pos);
        PrecLeaves(ts, SkipLines(ts, pos + 1), PREC_ASSIGNMENT);
        MarkLater(ts, pos, SkipLines(ts, pos + 1));
      }
    }
  }

  lemma {:induction false} InfixLeaves(ts: seq<Token>, pos: nat, prec: nat, left: Expr)
    requires prec > 0 && 0 < pos <= |ts| && EndsOperand(ts[pos - 1])
    ensures Explained(ts, pos, ParseInfix(ts, pos, prec, left))
    decreases |ts| - pos, 0
  {
    hide ParsePrec, MarkFrom, Asked, SkipLines;
    if pos < |ts| && prec <= Prec(ts[pos]) {
      if HasInfix(ts[pos]) {
        var after := SkipLines(ts, pos + 1);
        var lost := after != pos + 1;
        InfixUnfold(ts, pos, prec, left);
        AskedBy(ts, pos);
        PrecLeaves(ts, after, InfixPrec(ts[pos], lost));
        MarkLater(ts, pos, after);
        var right := ParsePrec(ts, after, InfixPrec(ts[pos], lost));
        if right.GoodExpr? {
          InfixLeaves(ts, right.next, prec, InfixTree(ts[pos], lost, left, right.e));
          MarkLater(ts, pos, right.next);
        }
      } else {
        MarkHere(ts, pos);
      }
    }
  }

  /** The same for statements. */
  predicate ExplainedS(ts: seq<Token>, pos: nat, r: ParsedStmt) {
    r.BadStmt? && r.away ==> MarkFrom(ts, pos)
  }

  lemma LetLeaves(ts: seq<Token>, pos: nat)
    requires pos <= |ts|
    ensures ExplainedS(ts, pos, ParseLet(ts, pos))
  {
    hide ParsePrec, MarkFrom, Asked, Newline;
    if TokenAt(ts, pos).NameTok? && TokenAt(ts, pos + 1) == EqualTok {
      AskedBy(ts, pos + 1);
      PrecLeaves(ts, pos + 2, PREC_ASSIGNMENT);
      MarkLater(ts, pos, pos + 2);
    }
  }

  lemma {:induction false} DeclarationLeaves(ts: seq<Token>, pos: nat)
    requires pos <= |ts|
    ensures ExplainedS(ts, pos, ParseDeclaration(ts, pos))
    decreases |ts| - pos, 1
  {
    hide ParseLet, ParseStatement, MarkFrom;
    var p := SkipLines(ts, pos);
    if TokenAt(ts, p) == LetTok {
      LetLeaves(ts, p + 1);
      MarkLater(ts, pos, p + 1);
    } else {
      StatementLeaves(ts, p);
      MarkLater(ts, pos, p);
    }
  }

  lemma {:induction false} StatementLeaves(ts: seq<Token>, pos: nat)
    requires pos <= |ts|
    ensures ExplainedS(ts, pos, ParseStatement(ts, pos))
    decreases |ts| - pos, 0
  {
    hide ParsePrec, ParseWhile, ParseIf, ParseBlock, Newline, MarkFrom, Asked;
    if pos < |ts| {
      MarkLater(ts, pos, pos + 1);
      match ts[pos] {
        case WhileTok => WhileLeaves(ts, pos + 1);
        case IfTok => IfLeaves(ts, pos + 1);
        case LBrace => BlockLeaves(ts, pos + 1);
        case BreakTok =>
        case SkipTok =>
        case _ => PrecLeaves(ts, pos, PREC_ASSIGNMENT);
      }
    }
  }

  lemma {:induction false} BlockLeaves(ts: seq<Token>, pos: nat)
    requires pos <= |ts|
    ensures ExplainedS(ts, pos, ParseBlock(ts, pos))
    decreases |ts| - pos, 2
  {
    hide ParseDeclaration, MarkFrom;
    if TokenAt(ts, pos) != RBrace && TokenAt(ts, pos) != Eof {
      DeclarationLeaves(ts, pos);
      var first := ParseDeclaration(ts, pos);
      if first.GoodStmt? {
        BlockLeaves(ts, first.next);
        MarkLater(ts, pos, first.next);
      }
    }
  }

  lemma {:induction false} BracedLeaves(ts: seq<Token>, pos: nat)
    requires pos <= |ts|
    ensures ExplainedS(ts, pos, ParseBraced(ts, pos))
    decreases |ts| - pos, 3
  {
    hide ParseBlock, MarkFrom;
    if TokenAt(ts, pos) == LBrace {
      BlockLeaves(ts, pos + 1);
      MarkLater(ts, pos, pos + 1);
    }
  }

  lemma {:induction false} WhileLeaves(ts: seq<Token>, pos: nat)
    requires 0 < pos <= |ts| && ts[pos - 1] == WhileTok
    ensures ExplainedS(ts, pos, ParseWhile(ts, pos))
    decreases |ts| - pos, 4
  {
    hide ParsePrec, ParseBraced, MarkFrom, Asked, Newline, SkipLines;
    var p := SkipLines(ts, pos);
    AskedBy(ts, pos - 1);
    PrecLeaves(ts, p, PREC_ASSIGNMENT);
    MarkLater(ts, pos, p);
    var cond := ParseExpr(ts, p);
    if cond.GoodExpr? {
      BracedLeaves(ts, SkipLines(ts, cond.next));
      MarkLater(ts, pos, SkipLines(ts, cond.next));
    }
  }

  lemma {:induction false} IfLeaves(ts: seq<Token>, pos: nat)
    requires 0 < pos <= |ts| && ts[pos - 1] == IfTok
    ensures ExplainedS(ts, pos, ParseIf(ts, pos))
    decreases |ts| - pos, 4
  {
    hide ParsePrec, ParseBraced, ParseElse, MarkFrom, Asked, SkipLines;
    AskedBy(ts, pos - 1);
    PrecLeaves(ts, pos, PREC_ASSIGNMENT);
    var cond := ParseExpr(ts, pos);
    if cond.GoodExpr? {
      var p := SkipLines(ts, cond.next);
      BracedLeaves(ts, p);
      MarkLater(ts, pos, p);
      var yes := ParseBraced(ts, p);
      if yes.GoodStmt? {
        ElseLeaves(ts, yes.next);
        MarkLater(ts, pos, yes.next);
      }
    }
  }

  lemma {:induction false} ElseLeaves(ts: seq<Token>, pos: nat)
    requires pos <= |ts|
    ensures ExplainedS(ts, pos, ParseElse(ts, pos))
    decreases |ts| - pos, 5
  {
    hide ParseIf, ParseBraced, MarkFrom, Newline, SkipLines;
    if TokenAt(ts, pos) == ElseTok {
      var p := SkipLines(ts, pos + 1);
      if TokenAt(ts, p) == IfTok {
        IfLeaves(ts, p + 1);
        MarkLater(ts, pos, p + 1);
      } else {
        BracedLeaves(ts, p);
        MarkLater(ts, pos, p);
      }
    }
  }

  lemma {:induction false} ItemsLeave(ts: seq<Token>, pos: nat)
    requires pos <= |ts|
    ensures ExplainedS(ts, pos, ParseItems(ts, pos))
    decreases |ts| - pos
  {
    hide ParseDeclaration, MarkFrom;
    if TokenAt(ts, pos) != Eof {
      DeclarationLeaves(ts, pos);
      var first := ParseDeclaration(ts, pos);
      if first.GoodStmt? {
        ItemsLeave(ts, first.next);
        MarkLater(ts, pos, first.next);
      }
    }
  }

  /** Tokens leave the fragment only if there is a mark among them, so that all others are compiled or refused. */
  lemma LeavesAtMark(ts: seq<Token>)
    requires Leaves(ts)
    ensures MarkFrom(ts, 0)
  {
    hide ParseItems, MarkFrom;
    ItemsLeave(ts, SkipLines(ts, 0));
    MarkLater(ts, 0, SkipLines(ts, 0));
  }

  /** A text that begins with a call, an index, a member, a pipe or a swap of a name leaves it. */
  lemma MarkedLeaves(ts: seq<Token>)
    requires |ts| >= 2 && ts[0].NameTok? && ts[1] in {LParen, LSquare, Dot, Pipe, Arrow}
    ensures Leaves(ts)
  {
    hide ParsePrec, ParseInfix, ParseNamed, ParseStatement;
    assert SkipLines(ts, 0) == 0;
    NamedAway(ts);
    PrecAway(ts);
    StatementAway(ts);
  }

  lemma NamedAway(ts: seq<Token>)
    requires |ts| >= 2 && ts[0].NameTok? && ts[1] in {LParen, LSquare, Dot, Pipe, Arrow}
    ensures ParsePrefix(ts, 0, true) == ParseNamed(ts, 1, ts[0].name, true)
    ensures ParseNamed(ts, 1, ts[0].name, true) ==
      if ts[1] in {LSquare, Arrow} then BadExpr(true) else GoodExpr(Var(ts[0].name), 1)
    ensures ts[1] in {LParen, Dot, Pipe} ==> ParseInfix(ts, 1, PREC_ASSIGNMENT, Var(ts[0].name)) == BadExpr(true)
  {
  }

  lemma PrecAway(ts: seq<Token>)
    requires |ts| >= 2 && ts[0].NameTok? && ts[1] in {LParen, LSquare, Dot, Pipe, Arrow}
    ensures ParseExpr(ts, 0) == BadExpr(true)
  {
    hide ParsePrefix, ParseInfix, ParseNamed;
    NamedAway(ts);
  }

  lemma StatementAway(ts: seq<Token>)
    requires |ts| >= 2 && ts[0].NameTok? && ParseExpr(ts, 0) == BadExpr(true)
    ensures ParseStatement(ts, 0) == BadStmt(true) && ParseDeclaration(ts, 0) == BadStmt(true)
  {
    hide ParsePrec;
    assert SkipLines(ts, 0) == 0;
  }
}
