/**
  Printing whole programs of the fragment, and the proof that the parser of the source
  reads every printed program back as the same tree.
 */
module Printing {
  import opened Bytecode
  import opened Syntax
  import opened Parser
  import opened Pratt

  function PrintList(s: Stmt): seq<Token>
    requires IsList(s)
    decreases s, 0
  {
    match s
    case Nop => []
    case Seq(a, b) => PrintItem(a) + PrintList(b)
  }

  function Braced(s: Stmt): seq<Token>
    requires IsList(s)
    decreases s, 1
  {
    [LBrace] + PrintList(s) + [RBrace]
  }

  function PrintItem(s: Stmt): seq<Token>
    requires IsItem(s)
    decreases s, 0
  {
    match s
    case ExprS(e) => Print(e, PREC_ASSIGNMENT) + [Line]
    case LetS(x, e) => [LetTok, NameTok(x), EqualTok] + (Print(e, PREC_ASSIGNMENT) + [Line])
    case IfS(c, y, n) => [IfTok] + (Print(c, PREC_ASSIGNMENT) + (Braced(y) + PrintElse(n)))
    case WhileS(c, b) => [WhileTok] + (Print(c, PREC_ASSIGNMENT) + (Braced(b) + [Line]))
    case BreakS => [BreakTok]
    case SkipS => [SkipTok]
    case BlockS(b) => Braced(b) + [Line]
  }

  function PrintElse(s: Stmt): seq<Token>
    requires IsList(s) || (s.IfS? && IsItem(s))
    decreases s, 2
  {
    if s == Nop then [Line]
    else if s.IfS? then [ElseTok] + PrintItem(s)
    else [ElseTok] + (Braced(s) + [Line])
  }

  /** The first token of a printed statement or of what closes a list is never a newline. */
  lemma FirstOfItem(s: Stmt)
    requires IsItem(s) && CleanS(s)
    ensures PrintItem(s) != [] && PrintItem(s)[0] !in {Line, RBrace, Eof}
    ensures s.LetS? <==> PrintItem(s)[0] == LetTok
  {
    match s
    case ExprS(e) => FirstOfExpr(e, PREC_ASSIGNMENT);
    case _ =>
  }

  predicate StartsExpr(t: Token) {
    t.LitTok? || t.NameTok? || t == LParen || t == NotTok || t == BinTok(Sub)
  }

  lemma {:induction false} FirstOfExpr(e: Expr, p: nat)
    requires Clean(e)
    ensures Print(e, p) != [] && StartsExpr(Print(e, p)[0])
    ensures PrintBare(e) != [] && StartsExpr(PrintBare(e)[0])
  {
    match e
    case Bin(_, l, _) => FirstOfExpr(l, LeftDemand(e));
    case And(l, _) => FirstOfExpr(l, LeftDemand(e));
    case Or(l, _) => FirstOfExpr(l, LeftDemand(e));
    case _ =>
  }

  /** A whole expression followed by a newline or an opening brace is read as itself. */
  lemma ReadExpr(ts: seq<Token>, pos: nat, e: Expr, tail: seq<Token>)
    requires Clean(e) && tail != [] && tail[0] in {Line, LBrace}
    requires Stands(ts, pos, Print(e, PREC_ASSIGNMENT) + tail)
    ensures var stop := pos + |Print(e, PREC_ASSIGNMENT)|;
            && pos < |ts| && StartsExpr(ts[pos])
            && ParseExpr(ts, pos) == GoodExpr(e, stop)
            && Stands(ts, stop, tail) && TokenAt(ts, stop) == tail[0]
  {
    hide ParsePrec, ParseInfix;
    FirstOfExpr(e, PREC_ASSIGNMENT);
    StandsApart(ts, pos, Print(e, PREC_ASSIGNMENT), tail);
    StandsFirst(ts, pos, Print(e, PREC_ASSIGNMENT));
    StandsFirst(ts, pos + |Print(e, PREC_ASSIGNMENT)|, tail);
    PrattRoundTrip(ts, pos, e, PREC_ASSIGNMENT);
  }

  /** The newline that ends a printed statement is consumed, and nothing behind it. */
  lemma ReadLine(ts: seq<Token>, pos: nat)
    requires Stands(ts, pos, [Line]) && TokenAt(ts, pos + 1) != Line
    ensures Newline(ts, pos) == At(pos + 1)
  {
    StandsFirst(ts, pos, [Line]);
  }

  lemma {:induction false} ReadBraced(ts: seq<Token>, pos: nat, s: Stmt, tail: seq<Token>)
    requires IsList(s) && CleanS(s)
    requires Stands(ts, pos, Braced(s) + tail)
    ensures ParseBraced(ts, pos) == GoodStmt(s, pos + |Braced(s)|)
    ensures ParseBlock(ts, pos + 1) == GoodStmt(s, pos + |Braced(s)|)
    ensures TokenAt(ts, pos) == LBrace && Stands(ts, pos + |Braced(s)|, tail)
    decreases s, 3
  {
    hide ParseBlock;
    StandsApart(ts, pos, Braced(s), tail);
    StandsApart(ts, pos, [LBrace] + PrintList(s), [RBrace]);
    StandsApart(ts, pos, [LBrace], PrintList(s));
    StandsFirst(ts, pos, [LBrace]);
    StandsFirst(ts, pos + 1 + |PrintList(s)|, [RBrace]);
    ReadList(ts, pos + 1, s);
  }

  lemma {:induction false} ReadList(ts: seq<Token>, pos: nat, s: Stmt)
    requires IsList(s) && CleanS(s)
    requires Stands(ts, pos, PrintList(s)) && TokenAt(ts, pos + |PrintList(s)|) == RBrace
    ensures ParseBlock(ts, pos) == GoodStmt(s, pos + |PrintList(s)| + 1)
    decreases s, 2
  {
    hide Stands, PrintItem, ParseDeclaration;
    if s.Seq? {
      var at := pos + |PrintItem(s.first)|;
      StandsApart(ts, pos, PrintItem(s.first), PrintList(s.rest));
      FirstOfList(ts, at, s.rest);
      FirstOfItem(s.first);
      StandsFirst(ts, pos, PrintItem(s.first));
      ReadItem(ts, pos, s.first);
      ReadList(ts, at, s.rest);
      BlockRule(ts, pos, s.first, at, s.rest, pos + |PrintList(s)| + 1);
    }
  }

  lemma FirstOfList(ts: seq<Token>, pos: nat, s: Stmt)
    requires IsList(s) && CleanS(s)
    requires Stands(ts, pos, PrintList(s)) && TokenAt(ts, pos + |PrintList(s)|) in {RBrace, Eof}
    ensures TokenAt(ts, pos) != Line
  {
    if s.Seq? {
      FirstOfItem(s.first);
      StandsFirst(ts, pos, PrintList(s));
    }
  }

  lemma BlockRule(ts: seq<Token>, pos: nat, first: Stmt, at: nat, rest: Stmt, stop: nat)
    requires pos < |ts| && TokenAt(ts, pos) !in {RBrace, Eof}
    requires ParseDeclaration(ts, pos) == GoodStmt(first, at)
    requires ParseBlock(ts, at) == GoodStmt(rest, stop)
    ensures ParseBlock(ts, pos) == GoodStmt(Seq(first, rest), stop)
  {
  }

  /** Every printed statement is read as itself, newline included. */
  lemma {:induction false} ReadItem(ts: seq<Token>, pos: nat, s: Stmt)
    requires IsItem(s) && CleanS(s)
    requires Stands(ts, pos, PrintItem(s)) && TokenAt(ts, pos + |PrintItem(s)|) != Line
    ensures ParseDeclaration(ts, pos) == GoodStmt(s, pos + |PrintItem(s)|)
    decreases s, 2
  {
    hide ParseStatement, ParseLet;
    FirstOfItem(s);
    StandsFirst(ts, pos, PrintItem(s));
    if s.LetS? {
      ReadLet(ts, pos, s.name, s.init);
    } else {
      ReadStatement(ts, pos, s);
    }
  }

  lemma ReadLet(ts: seq<Token>, pos: nat, x: string, e: Expr)
    requires Clean(e)
    requires Stands(ts, pos, PrintItem(LetS(x, e))) && TokenAt(ts, pos + |PrintItem(LetS(x, e))|) != Line
    ensures ParseLet(ts, pos + 1) == GoodStmt(LetS(x, e), pos + |PrintItem(LetS(x, e))|)
  {
    hide ParsePrec, SkipLines, Print;
    var head := [LetTok, NameTok(x), EqualTok];
    StandsApart(ts, pos, head, Print(e, PREC_ASSIGNMENT) + [Line]);
    assert ts[pos..pos + 3][1] == ts[pos + 1] && ts[pos..pos + 3][2] == ts[pos + 2];
    ReadExpr(ts, pos + 3, e, [Line]);
    ReadLine(ts, pos + 3 + |Print(e, PREC_ASSIGNMENT)|);
  }

  lemma {:induction false} ReadStatement(ts: seq<Token>, pos: nat, s: Stmt)
    requires IsItem(s) && CleanS(s) && !s.LetS?
    requires Stands(ts, pos, PrintItem(s)) && TokenAt(ts, pos + |PrintItem(s)|) != Line
    ensures pos < |ts| && ParseStatement(ts, pos) == GoodStmt(s, pos + |PrintItem(s)|)
    decreases s, 1
  {
    hide ParsePrec, ParseExpr, SkipLines, Newline, Print, ParseBlock, ParseBraced, ParseWhile, ParseIf, Stands, PrintElse, PrintList;
    StandsFirst(ts, pos, PrintItem(s));
    match s
    case ExprS(e) =>
      ReadExpr(ts, pos, e, [Line]);
      ReadLine(ts, pos + |Print(e, PREC_ASSIGNMENT)|);
    case IfS(c, y, n) => ReadIf(ts, pos, s);
    case WhileS(c, b) => ReadWhile(ts, pos, s);
    case BreakS =>
    case SkipS =>
    case BlockS(b) =>
      ReadBraced(ts, pos, b, [Line]);
      ReadLine(ts, pos + |Braced(b)|);
  }

  lemma {:induction false} ReadWhile(ts: seq<Token>, pos: nat, s: Stmt)
    requires s.WhileS? && IsItem(s) && CleanS(s)
    requires Stands(ts, pos, PrintItem(s)) && TokenAt(ts, pos + |PrintItem(s)|) != Line
    ensures pos < |ts| && ParseWhile(ts, pos + 1) == GoodStmt(s, pos + |PrintItem(s)|)
    decreases s, 0
  {
    hide ParsePrec, ParseExpr, SkipLines, Newline, Print, PrintList, ParseBlock, ParseBraced, Stands;
    var c, b := s.cond, s.body;
    StandsFirst(ts, pos, PrintItem(s));
    StandsApart(ts, pos, [WhileTok], Print(c, PREC_ASSIGNMENT) + (Braced(b) + [Line]));
    ReadExpr(ts, pos + 1, c, Braced(b) + [Line]);
    var at := pos + 1 + |Print(c, PREC_ASSIGNMENT)|;
    ReadBraced(ts, at, b, [Line]);
    ReadLine(ts, at + |Braced(b)|);
  }

  lemma {:induction false} ReadIf(ts: seq<Token>, pos: nat, s: Stmt)
    requires s.IfS? && IsItem(s) && CleanS(s)
    requires Stands(ts, pos, PrintItem(s)) && TokenAt(ts, pos + |PrintItem(s)|) != Line
    ensures pos < |ts| && ParseIf(ts, pos + 1) == GoodStmt(s, pos + |PrintItem(s)|)
    decreases s, 0
  {
    hide ParsePrec, ParseExpr, Newline, Print, ParseBlock, ParseBraced, ParseElse, Stands, PrintElse, PrintList;
    var c, y, n := s.cond, s.yes, s.no;
    StandsApart(ts, pos, [IfTok], Print(c, PREC_ASSIGNMENT) + (Braced(y) + PrintElse(n)));
    ReadExpr(ts, pos + 1, c, Braced(y) + PrintElse(n));
    var at := pos + 1 + |Print(c, PREC_ASSIGNMENT)|;
    ReadBraced(ts, at, y, PrintElse(n));
    ReadElse(ts, at + |Braced(y)|, n);
  }

  lemma {:induction false} ReadElse(ts: seq<Token>, pos: nat, s: Stmt)
    requires (IsList(s) || (s.IfS? && IsItem(s))) && CleanS(s)
    requires Stands(ts, pos, PrintElse(s)) && TokenAt(ts, pos + |PrintElse(s)|) != Line
    ensures ParseElse(ts, pos) == GoodStmt(s, pos + |PrintElse(s)|)
    decreases s, 4
  {
    hide ParsePrec, ParseBlock, ParseBraced, ParseIf, Print, SkipLines, Newline, PrintList, Braced, Stands;
    StandsFirst(ts, pos, PrintElse(s));
    if s == Nop {
      ReadLine(ts, pos);
    } else if s.IfS? {
      StandsApart(ts, pos, [ElseTok], PrintItem(s));
      StandsFirst(ts, pos + 1, PrintItem(s));
      ReadIf(ts, pos + 1, s);
    } else {
      StandsApart(ts, pos, [ElseTok], Braced(s) + [Line]);
      ReadBraced(ts, pos + 1, s, [Line]);
      ReadLine(ts, pos + 1 + |Braced(s)|);
    }
  }

  lemma {:induction false} ReadItems(ts: seq<Token>, pos: nat, s: Stmt)
    requires IsList(s) && CleanS(s)
    requires Stands(ts, pos, PrintList(s)) && TokenAt(ts, pos + |PrintList(s)|) == Eof
    ensures ParseItems(ts, pos) == GoodStmt(s, pos + |PrintList(s)|)
    decreases s
  {
    hide Stands, PrintItem, ParseDeclaration;
    if s.Seq? {
      var at := pos + |PrintItem(s.first)|;
      StandsApart(ts, pos, PrintItem(s.first), PrintList(s.rest));
      FirstOfList(ts, at, s.rest);
      FirstOfItem(s.first);
      StandsFirst(ts, pos, PrintItem(s.first));
      ReadItem(ts, pos, s.first);
      ReadItems(ts, at, s.rest);
    }
  }

  /** Printing then parsing a program gives the same program. */
  lemma ProgramRoundTrip(s: Stmt)
    requires IsList(s) && CleanS(s)
    ensures ParseProgram(PrintList(s) + [Eof]) == GoodStmt(s, |PrintList(s)|)
  {
    hide ParseItems;
    var ts := PrintList(s) + [Eof];
    if s.Seq? {
      FirstOfItem(s.first);
    }
    assert ts[0..|PrintList(s)|] == PrintList(s);
    ReadItems(ts, 0, s);
  }
}
