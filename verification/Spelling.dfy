/**
  How the fragment is written: which sign stands for which operator and which word for which
  construct, from the characters of a text to the program it is read as.
 */
module Spelling {
  import opened Wrappers
  import opened Bytecode
  import opened Syntax
  import opened Parser
  import opened Pratt
  import opened Printing
  import Precedence
  import opened SourceText
  import Lexing
  import WholeText

  type Writing = seq<WholeText.Written>

  /** The text is read as this program, and nothing in it is an error or left out. */
  predicate Reads(ws: Writing, r: Reading, s: Stmt) {
    var text := WholeText.Spaced(ws);
    && Lexing.NoNul(text)
    && var a := WholeText.All(text, WholeText.BEGIN);
       Parsable(text, a, r) && !Any(text, a, r, Odd) && ParseProgram(TokensOf(text, r)) == GoodStmt(s, |ws| + 1)
  }

  /** A word, a sign, a name and a number, as they are written. */
  function K(t: string): WholeText.Written {
    WholeText.Written(Lexing.Keyword(t), t)
  }

  function S(t: string): WholeText.Written {
    WholeText.Written(Lexing.Sign(t), t)
  }

  function X(name: string): WholeText.Written {
    WholeText.Written(Lexing.Name, name)
  }

  function D(digits: string): WholeText.Written {
    WholeText.Written(Lexing.Number, digits)
  }

  const NEWLINE: WholeText.Written := WholeText.Written(Lexing.Line, "\n")

  predicate IsName(x: string) {
    WholeText.IsWord(x) && x !in Lexing.KEYWORDS
  }

  /** What is written is seen as these tokens. */
  predicate Shows(ws: Writing, r: Reading, ts: seq<Token>) {
    |ws| == |ts| && forall i :: 0 <= i < |ws| ==> ShowsAt(ws[i], r, ts[i])
  }

  predicate ShowsAt(w: WholeText.Written, r: Reading, t: Token) {
    WholeText.Spelt(w) && See(w.kind, w.text, r) == Fit(t)
  }

  /** What is seen as the tokens of a program, its last newline left out, is read as the program. */
  lemma ReadsAs(ws: Writing, r: Reading, s: Stmt)
    requires IsList(s) && CleanS(s) && PrintList(s) != [] && PrintList(s)[|PrintList(s)| - 1] == Line
    requires Shows(ws, r, PrintList(s)[..|PrintList(s)| - 1])
    ensures Reads(ws, r, s)
  {
    hide PrintList, IsList, CleanS, ParseProgram, ShowsAt, See, WholeText.All, WholeText.Spaced, Tokens;
    var ts := PrintList(s);
    var front := ts[..|ts| - 1];
    SeenRead(ws, r, front);
    assert front + [Line, Eof] == ts + [Eof];
    ProgramRoundTrip(s);
  }

  lemma SeenRead(ws: Writing, r: Reading, ts: seq<Token>)
    requires Shows(ws, r, ts)
    ensures var s := WholeText.Spaced(ws);
      && Lexing.NoNul(s)
      && var a := WholeText.All(s, WholeText.BEGIN);
         Parsable(s, a, r) && !Any(s, a, r, Odd) && TokensOf(s, r) == ts + [Line, Eof]
  {
    hide WholeText.All, WholeText.Spaced, WholeText.Spelt, See, Tokens;
    var s := WholeText.Spaced(ws);
    forall w | w in ws ensures WholeText.Spelt(w) {
      var i :| 0 <= i < |ws| && ws[i] == w;
      assert ShowsAt(ws[i], r, ts[i]);
    }
    WholeText.LexRoundTrip(ws);
    var a := WholeText.All(s, WholeText.BEGIN);
    WholeText.Inside(s, WholeText.BEGIN);
    var all := ts + [Line, Eof];
    forall i | 0 <= i < |a| ensures SeeAt(s, a[i], r) == Fit(all[i]) {
      if i < |ts| {
        assert ShowsAt(ws[i], r, ts[i]);
        assert WholeText.Same(s, a[i], ws[i]);
      } else {
        assert a[i] in a;
        EndSeen(s, a[i], r);
      }
    }
    SameTokens(s, a, r, all);
  }

  /** Which sign is which operator. */
  predicate Spells(sign: string, op: BinOp) {
    (sign, op) in {
      ("+", Add), ("-", Sub), ("*", Mul), ("**", Pow), ("/", Div), ("%", Mod), ("::", Concat), ("==", Equal), ("!=", NotEq),
      ("<", Less), ("<=", LessEq), (">", Greater), (">=", GreaterEq)}
  }

  predicate SpellsUpdate(sign: string, op: BinOp) {
    (sign, op) in {("+=", Add), ("-=", Sub), ("*=", Mul), ("**=", Pow), ("/=", Div), ("%=", Mod), ("::=", Concat)}
  }

  function Number(r: Reading, digits: string): Expr {
    Lit(NumberLit(r.number(digits)))
  }

  /** `let x = e` */
  function Let(x: string, e: Expr): Stmt {
    Seq(LetS(x, e), Nop)
  }

  lemma PrintLet(x: string, e: Expr, front: seq<Token>)
    requires Clean(e) && front == Print(e, PREC_ASSIGNMENT)
    ensures var s := Let(x, e);
      IsList(s) && CleanS(s) && PrintList(s) == [LetTok, NameTok(x), EqualTok] + front + [Line]
  {
    hide Print, Clean;
    var l := LetS(x, e);
    assert IsItem(l) && IsList(Nop) && PrintList(Nop) == [];
    assert PrintList(Seq(l, Nop)) == PrintItem(l) + PrintList(Nop);
    assert CleanS(l);
  }

  /** `let x = ...`, where what is written behind the sign is seen as the expression. */
  lemma ReadsLet(x: string, ws: Writing, r: Reading, e: Expr)
    requires IsName(x) && Clean(e) && Shows(ws, r, Print(e, PREC_ASSIGNMENT))
    ensures Reads([K("let"), X(x), S("=")] + ws, r, Let(x, e))
  {
    hide Print, Clean, ShowsAt, PrintList, IsList, CleanS, Reads;
    var front := Print(e, PREC_ASSIGNMENT);
    PrintLet(x, e, front);
    LetShown(x, r);
    var all := PrintList(Let(x, e));
    assert all[..|all| - 1] == [LetTok, NameTok(x), EqualTok] + front;
    ReadsAs([K("let"), X(x), S("=")] + ws, r, Let(x, e));
  }

  lemma LetShown(x: string, r: Reading)
    requires IsName(x)
    ensures Shows([K("let"), X(x), S("=")], r, [LetTok, NameTok(x), EqualTok])
  {
    hide WholeText.IsWord;
  }

  /** Every binary operator by its sign, and `in` by its word. */
  lemma OperatorSpelt(x: string, a: string, sign: string, op: BinOp, b: string, r: Reading)
    requires IsName(x) && WholeText.IsDecimal(a) && WholeText.IsDecimal(b) && Spells(sign, op)
    ensures Reads([K("let"), X(x), S("=")] + [D(a), S(sign), D(b)], r, Let(x, Bin(op, Number(r, a), Number(r, b))))
    ensures Reads([K("let"), X(x), S("=")] + [D(a), K("in"), D(b)], r, Let(x, Bin(Contain, Number(r, a), Number(r, b))))
  {
    hide WholeText.IsDecimal, WholeText.IsWord, Reads;
    PrintNumbers(r, a, b);
    assert ShowsAt(S(sign), r, BinTok(op)) && ShowsAt(K("in"), r, BinTok(Contain));
    ReadsLet(x, [D(a), S(sign), D(b)], r, Bin(op, Number(r, a), Number(r, b)));
    ReadsLet(x, [D(a), K("in"), D(b)], r, Bin(Contain, Number(r, a), Number(r, b)));
  }

  lemma PrintNumbers(r: Reading, a: string, b: string)
    ensures var l, k := Number(r, a), Number(r, b);
      && (forall op :: Print(Bin(op, l, k), PREC_ASSIGNMENT) == [LitTok(l.literal), BinTok(op), LitTok(k.literal)])
      && Print(And(l, k), PREC_ASSIGNMENT) == [LitTok(l.literal), AndTok, LitTok(k.literal)]
      && Print(Or(l, k), PREC_ASSIGNMENT) == [LitTok(l.literal), OrTok, LitTok(k.literal)]
      && Print(NotE(l), PREC_ASSIGNMENT) == [NotTok, LitTok(l.literal)]
      && Print(NegE(l), PREC_ASSIGNMENT) == [BinTok(Sub), LitTok(l.literal)]
  {
    var l, k := Number(r, a), Number(r, b);
    hide Print;
    forall op ensures Print(Bin(op, l, k), PREC_ASSIGNMENT) == [LitTok(l.literal), BinTok(op), LitTok(k.literal)] {
      Precedence.PrintNode(Bin(op, l, k), PREC_ASSIGNMENT);
    }
    Precedence.PrintNode(And(l, k), PREC_ASSIGNMENT);
    Precedence.PrintNode(Or(l, k), PREC_ASSIGNMENT);
    PrintUnary(l);
  }

  lemma PrintUnary(a: Expr)
    requires Precedence.IsAtom(a)
    ensures Print(NotE(a), PREC_ASSIGNMENT) == [NotTok, Precedence.Word(a)]
    ensures Print(NegE(a), PREC_ASSIGNMENT) == [BinTok(Sub), Precedence.Word(a)]
  {
    Precedence.PrintAtom(a, RightDemand(NotE(a)));
    Precedence.PrintAtom(a, RightDemand(NegE(a)));
    assert [NotTok] + [Precedence.Word(a)] == [NotTok, Precedence.Word(a)];
    assert [BinTok(Sub)] + [Precedence.Word(a)] == [BinTok(Sub), Precedence.Word(a)];
  }

  /** The words between and in front of operands, and the sign in front of one. */
  lemma WordsSpelt(x: string, a: string, b: string, r: Reading)
    requires IsName(x) && WholeText.IsDecimal(a) && WholeText.IsDecimal(b)
    ensures Reads([K("let"), X(x), S("=")] + [D(a), K("and"), D(b)], r, Let(x, And(Number(r, a), Number(r, b))))
    ensures Reads([K("let"), X(x), S("=")] + [D(a), K("or"), D(b)], r, Let(x, Or(Number(r, a), Number(r, b))))
    ensures Reads([K("let"), X(x), S("=")] + [K("not"), D(a)], r, Let(x, NotE(Number(r, a))))
    ensures Reads([K("let"), X(x), S("=")] + [S("-"), D(a)], r, Let(x, NegE(Number(r, a))))
  {
    hide WholeText.IsDecimal, WholeText.IsWord, Reads;
    PrintNumbers(r, a, b);
    assert ShowsAt(K("and"), r, AndTok) && ShowsAt(K("or"), r, OrTok);
    assert ShowsAt(K("not"), r, NotTok) && ShowsAt(S("-"), r, BinTok(Sub));
    ReadsLet(x, [D(a), K("and"), D(b)], r, And(Number(r, a), Number(r, b)));
    ReadsLet(x, [D(a), K("or"), D(b)], r, Or(Number(r, a), Number(r, b)));
    ReadsLet(x, [K("not"), D(a)], r, NotE(Number(r, a)));
    ReadsLet(x, [S("-"), D(a)], r, NegE(Number(r, a)));
  }

  /** The words for constants, brackets, a string, and a name. */
  lemma ConstantsSpelt(x: string, y: string, q: string, u: string, r: Reading)
    requires IsName(x) && IsName(y) && WholeText.IsQuoted(q) && r.text(q) == Some(u)
    ensures Reads([K("let"), X(x), S("=")] + [K("none")], r, Let(x, Lit(NoneLit)))
    ensures Reads([K("let"), X(x), S("=")] + [K("true")], r, Let(x, Lit(BoolLit(true))))
    ensures Reads([K("let"), X(x), S("=")] + [K("false")], r, Let(x, Lit(BoolLit(false))))
    ensures Reads([K("let"), X(x), S("=")] + [WholeText.Written(Lexing.Text, q)], r, Let(x, Lit(StringLit(u))))
    ensures Reads([K("let"), X(x), S("=")] + [X(y)], r, Let(x, Var(y)))
  {
    hide WholeText.IsQuoted, WholeText.IsWord, Reads;
    assert ShowsAt(K("none"), r, LitTok(NoneLit));
    assert ShowsAt(K("true"), r, LitTok(BoolLit(true))) && ShowsAt(K("false"), r, LitTok(BoolLit(false)));
    ReadsLet(x, [K("none")], r, Lit(NoneLit));
    ReadsLet(x, [K("true")], r, Lit(BoolLit(true)));
    ReadsLet(x, [K("false")], r, Lit(BoolLit(false)));
    ReadsLet(x, [WholeText.Written(Lexing.Text, q)], r, Lit(StringLit(u)));
    ReadsLet(x, [X(y)], r, Var(y));
  }

  /** Assignments, by their signs. */
  lemma AssignmentSpelt(x: string, sign: string, op: BinOp, a: string, r: Reading)
    requires IsName(x) && WholeText.IsDecimal(a) && SpellsUpdate(sign, op)
    ensures Reads([X(x), S("="), D(a)], r, Seq(ExprS(Assign(x, Number(r, a))), Nop))
    ensures Reads([X(x), S(sign), D(a)], r, Seq(ExprS(Update(x, op, Number(r, a))), Nop))
  {
    hide WholeText.IsDecimal, WholeText.IsWord, Reads, Shows, Print, PrintList;
    var l := Number(r, a);
    PrintAssignments(x, op, l);
    PrintStatement(Assign(x, l), [NameTok(x), EqualTok, LitTok(l.literal)]);
    PrintStatement(Update(x, op, l), [NameTok(x), UpdateTok(op), LitTok(l.literal)]);
    ShownAssignments(x, sign, op, a, r);
    ReadsAs([X(x), S("="), D(a)], r, Seq(ExprS(Assign(x, l)), Nop));
    ReadsAs([X(x), S(sign), D(a)], r, Seq(ExprS(Update(x, op, l)), Nop));
  }

  lemma PrintAssignments(x: string, op: BinOp, l: Expr)
    requires l.Lit? && HasUpdate(op)
    ensures Clean(Assign(x, l)) && Print(Assign(x, l), PREC_ASSIGNMENT) == [NameTok(x), EqualTok, LitTok(l.literal)]
    ensures Clean(Update(x, op, l)) && Print(Update(x, op, l), PREC_ASSIGNMENT) == [NameTok(x), UpdateTok(op), LitTok(l.literal)]
  {
    Precedence.PrintAtom(l, PREC_ASSIGNMENT);
    assert Print(Assign(x, l), PREC_ASSIGNMENT) == [NameTok(x), EqualTok] + Print(l, PREC_ASSIGNMENT);
    assert Print(Update(x, op, l), PREC_ASSIGNMENT) == [NameTok(x), UpdateTok(op)] + Print(l, PREC_ASSIGNMENT);
  }

  lemma ShownAssignments(x: string, sign: string, op: BinOp, a: string, r: Reading)
    requires IsName(x) && WholeText.IsDecimal(a) && SpellsUpdate(sign, op)
    ensures Shows([X(x), S("="), D(a)], r, [NameTok(x), EqualTok, LitTok(NumberLit(r.number(a)))])
    ensures Shows([X(x), S(sign), D(a)], r, [NameTok(x), UpdateTok(op), LitTok(NumberLit(r.number(a)))])
  {
    hide WholeText.IsDecimal, WholeText.IsWord;
  }

  /** Without an initializer a variable is none. */
  lemma DefaultSpelt(x: string, r: Reading)
    requires IsName(x)
    ensures Reads([K("let"), X(x)], r, Let(x, Lit(NoneLit)))
  {
    hide WholeText.All, WholeText.Spaced, Tokens, ParseProgram;
    DefaultShown(x, r);
    SeenRead([K("let"), X(x)], r, [LetTok, NameTok(x)]);
    assert [LetTok, NameTok(x)] + [Line, Eof] == [LetTok, NameTok(x), Line, Eof];
    DefaultRead(x);
  }

  lemma DefaultShown(x: string, r: Reading)
    requires IsName(x)
    ensures Shows([K("let"), X(x)], r, [LetTok, NameTok(x)])
  {
    hide WholeText.IsWord;
  }

  lemma DefaultRead(x: string)
    ensures ParseProgram([LetTok, NameTok(x), Line, Eof]) == GoodStmt(Let(x, Lit(NoneLit)), 3)
  {
    var ts := [LetTok, NameTok(x), Line, Eof];
    assert SkipLines(ts, 0) == 0 && SkipLines(ts, 3) == 3;
    assert ParseLet(ts, 1) == GoodStmt(LetS(x, Lit(NoneLit)), 3);
    assert ParseDeclaration(ts, 0) == GoodStmt(LetS(x, Lit(NoneLit)), 3);
    assert ParseItems(ts, 3) == GoodStmt(Nop, 3);
  }

  lemma PrintStatement(e: Expr, front: seq<Token>)
    requires Clean(e) && front == Print(e, PREC_ASSIGNMENT)
    ensures var s := Seq(ExprS(e), Nop);
      IsList(s) && CleanS(s) && PrintList(s) == front + [Line] && PrintList(s)[..|PrintList(s)| - 1] == front
  {
    hide Print, Clean;
    var i := ExprS(e);
    assert IsItem(i) && IsList(Nop) && PrintList(Nop) == [] && CleanS(i);
    assert PrintList(Seq(i, Nop)) == PrintItem(i) + PrintList(Nop);
  }

  /** `while c { break }`, `while c { skip }` and `if c { ... } else { ... }` */
  lemma StatementsSpelt(r: Reading)
    ensures Reads([K("while"), K("true"), S("{"), K("break"), S("}")], r,
                  Seq(WhileS(Lit(BoolLit(true)), Seq(BreakS, Nop)), Nop))
    ensures Reads([K("while"), K("true"), S("{"), K("skip"), S("}")], r,
                  Seq(WhileS(Lit(BoolLit(true)), Seq(SkipS, Nop)), Nop))
    ensures Reads([K("if"), K("true"), S("{"), S("}"), K("else"), S("{"), K("none"), NEWLINE, S("}")], r,
                  Seq(IfS(Lit(BoolLit(true)), Nop, Seq(ExprS(Lit(NoneLit)), Nop)), Nop))
    ensures Reads([S("{"), K("none"), NEWLINE, S("}")], r, Seq(BlockS(Seq(ExprS(Lit(NoneLit)), Nop)), Nop))
  {
    hide Reads, PrintList, PrintItem, PrintElse, Braced, ShowsAt;
    ShownWords(r);
    PrintLoops();
    PrintChoice();
    var c := Lit(BoolLit(true));
    ReadsAs([K("while"), K("true"), S("{"), K("break"), S("}")], r, Seq(WhileS(c, Seq(BreakS, Nop)), Nop));
    ReadsAs([K("while"), K("true"), S("{"), K("skip"), S("}")], r, Seq(WhileS(c, Seq(SkipS, Nop)), Nop));
    ReadsAs([K("if"), K("true"), S("{"), S("}"), K("else"), S("{"), K("none"), NEWLINE, S("}")], r,
            Seq(IfS(c, Nop, Seq(ExprS(Lit(NoneLit)), Nop)), Nop));
    ReadsAs([S("{"), K("none"), NEWLINE, S("}")], r, Seq(BlockS(Seq(ExprS(Lit(NoneLit)), Nop)), Nop));
  }

  lemma ShownWords(r: Reading)
    ensures ShowsAt(K("while"), r, WhileTok) && ShowsAt(K("break"), r, BreakTok) && ShowsAt(K("skip"), r, SkipTok)
    ensures ShowsAt(K("if"), r, IfTok) && ShowsAt(K("else"), r, ElseTok) && ShowsAt(NEWLINE, r, Line)
    ensures ShowsAt(K("true"), r, LitTok(BoolLit(true))) && ShowsAt(K("none"), r, LitTok(NoneLit))
    ensures ShowsAt(S("{"), r, LBrace) && ShowsAt(S("}"), r, RBrace)
  {
  }

  lemma PrintLoops()
    ensures forall e :: e in {BreakS, SkipS} ==>
      var s := Seq(WhileS(Lit(BoolLit(true)), Seq(e, Nop)), Nop);
      IsList(s) && CleanS(s) &&
      PrintList(s) == [WhileTok, LitTok(BoolLit(true)), LBrace, if e == BreakS then BreakTok else SkipTok, RBrace, Line]
  {
    forall e | e in {BreakS, SkipS}
      ensures var s := Seq(WhileS(Lit(BoolLit(true)), Seq(e, Nop)), Nop);
        IsList(s) && CleanS(s) &&
        PrintList(s) == [WhileTok, LitTok(BoolLit(true)), LBrace, if e == BreakS then BreakTok else SkipTok, RBrace, Line]
    {
      var c, b := Lit(BoolLit(true)), Seq(e, Nop);
      assert IsItem(e) && IsList(b) && IsItem(WhileS(c, b));
      assert PrintList(b) == PrintItem(e) + PrintList(Nop) == [if e == BreakS then BreakTok else SkipTok];
      assert Print(c, PREC_ASSIGNMENT) == [LitTok(BoolLit(true))];
      assert PrintItem(WhileS(c, b)) == [WhileTok] + (Print(c, PREC_ASSIGNMENT) + (([LBrace] + PrintList(b) + [RBrace]) + [Line]));
      assert PrintList(Seq(WhileS(c, b), Nop)) == PrintItem(WhileS(c, b)) + PrintList(Nop);
      assert CleanS(e) && CleanS(b) && CleanS(WhileS(c, b));
    }
  }

  lemma PrintChoice()
    ensures var n := Seq(ExprS(Lit(NoneLit)), Nop);
      var s, k := Seq(IfS(Lit(BoolLit(true)), Nop, n), Nop), Seq(BlockS(n), Nop);
      && IsList(s) && CleanS(s) && IsList(k) && CleanS(k)
      && PrintList(s) == [IfTok, LitTok(BoolLit(true)), LBrace, RBrace, ElseTok, LBrace, LitTok(NoneLit), Line, RBrace, Line]
      && PrintList(k) == [LBrace, LitTok(NoneLit), Line, RBrace, Line]
  {
    hide Print;
    var c, n := Lit(BoolLit(true)), Seq(ExprS(Lit(NoneLit)), Nop);
    Precedence.PrintAtom(Lit(NoneLit), PREC_ASSIGNMENT);
    Precedence.PrintAtom(c, PREC_ASSIGNMENT);
    PrintStatement(Lit(NoneLit), [LitTok(NoneLit)]);
    var i, b := IfS(c, Nop, n), BlockS(n);
    assert IsItem(i) && IsItem(b) && CleanS(i) && CleanS(b);
    assert PrintElse(n) == [ElseTok] + (([LBrace] + PrintList(n) + [RBrace]) + [Line]);
    assert PrintItem(i) == [IfTok] + ([LitTok(BoolLit(true))] + (([LBrace] + PrintList(Nop) + [RBrace]) + PrintElse(n)));
    assert PrintItem(b) == ([LBrace] + PrintList(n) + [RBrace]) + [Line];
    assert PrintList(Seq(i, Nop)) == PrintItem(i) + PrintList(Nop);
    assert PrintList(Seq(b, Nop)) == PrintItem(b) + PrintList(Nop);
  }
}
