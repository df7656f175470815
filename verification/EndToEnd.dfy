/**
  From tokens to behaviour: the single-pass compiler run on a sequence of tokens, and how an
  accepted one loses an operator.
 */
module EndToEnd {
  import opened Wrappers
  import opened Bytecode
  import opened Syntax
  import opened Parser
  import opened Pratt
  import opened Printing
  import opened Formatting
  import opened Semantics
  import opened CodeGen
  import opened Machine
  import opened Simulation
  import opened Execution
  import opened Correctness
  import opened SinglePass

  /** Bytes and constants that, when run, come to rest exactly as the program ends. */
  ghost predicate Realizes(code: seq<Byte>, constants: seq<Value>, s: Stmt)
    requires CleanS(s)
  {
    forall m: Arith, self: Value, g: Globals, d: Config :: !d.Running? ==>
      (Goes(Program(FetchFrom(code), constants, m), Initial(self, g), d) <==> EndsIn(s, m, self, g, d))
  }

  ghost predicate EndsIn(s: Stmt, m: Arith, self: Value, g: Globals, d: Config)
    requires CleanS(s)
  {
    d != Stuck && exists fuel: nat :: Resting(Meaning(s, m, self, g, fuel)) == d
  }

  lemma CompiledRealizes(s: Stmt)
    requires Compilable(s)
    ensures Realizes(EncodeAll(GenProgram(s)), ConstsProgram(s), s)
  {
    hide Goes, Meaning, Resting, CleanS, Ok, Framed, AllFit;
    forall m: Arith, self: Value, g: Globals, d: Config | !d.Running?
      ensures Goes(Program(FetchFrom(EncodeAll(GenProgram(s))), ConstsProgram(s), m), Initial(self, g), d)
              <==> EndsIn(s, m, self, g, d)
    {
      CompilerExact(s, m, self, g, d);
    }
  }

  /** What becomes of a text; `Outside` when it uses a construct the model leaves out. */
  datatype Compilation = Done(code: seq<Byte>, constants: seq<Value>) | Refused | Outside

  /** The parser comes to a construct the model leaves out before it comes to an error. */
  predicate Leaves(ts: seq<Token>) {
    ParseProgram(ts).BadStmt? && ParseProgram(ts).away
  }

  /** The parser reads the tokens to their end, its names and loop statements are in order, its jumps are short enough. */
  predicate Taken(ts: seq<Token>) {
    var r := ParseProgram(ts);
    r.GoodStmt? && Ok(r.s, MainScope, 0, false) && AllFit(GenProgram(r.s))
  }

  /**
    Unless they leave the fragment, tokens are compiled exactly if the grammar, the names and
    the loop statements are in order and the jumps are short enough. If moreover no operator
    ends a line and the use of the stack can be predicted, the bytes do what the program means.
   */
  method CompileText(ts: seq<Token>) returns (c: Compilation)
    ensures c == Outside <==> Leaves(ts)
    ensures c.Done? <==> Taken(ts)
    ensures c.Done? ==> var r := ParseProgram(ts);
      && (Kept(ts, 0, r.next) <==> CleanS(r.s))
      && (Kept(ts, 0, r.next) && Framed(r.s, 0, 1, None) ==> Realizes(c.code, c.constants, r.s))
  {
    hide Kept, ParseProgram, Realizes, Ok, Framed, CleanS, AllFit, GenProgram, EncodeAll, IsList;
    if Leaves(ts) {
      return Outside;
    }
    var compiler := new Compiler(ts);
    compiler.Compile();
    if compiler.wError {
      return Refused;
    }
    c := Done(compiler.code, compiler.constants);
    ghost var r := ParseProgram(ts);
    OperatorsKept(ts);
    if Kept(ts, 0, r.next) && Framed(r.s, 0, 1, None) {
      CompiledRealizes(r.s);
    }
  }

  /** Printed programs are such texts: they are read back whole and keep their operators. */
  lemma PrintedTextKept(s: Stmt)
    requires IsList(s) && CleanS(s)
    ensures var r := ParseProgram(PrintList(s) + [Eof]); r == GoodStmt(s, |PrintList(s)|) && Kept(PrintList(s) + [Eof], 0, r.next)
  {
    hide Kept, ParseProgram, PrintList, IsList, CleanS;
    ProgramRoundTrip(s);
    OperatorsKept(PrintList(s) + [Eof]);
  }

  /** One literal, and nothing that continues it. */
  lemma ReadLiteral(ts: seq<Token>, pos: nat, l: Literal, prec: nat)
    requires pos < |ts| && ts[pos] == LitTok(l) && TokenAt(ts, pos + 1) == Line && prec > 0
    ensures ParsePrec(ts, pos, prec) == GoodExpr(Lit(l), pos + 1)
  {
    assert ParseInfix(ts, pos + 1, prec, Lit(l)) == GoodExpr(Lit(l), pos + 1);
  }

  /** A newline behind an operator: both operands are pushed, and no opcode joins them. */
  lemma NewlineLosesOperator(op: BinOp, x: Literal, y: Literal)
    ensures ParseExpr([LitTok(x), BinTok(op), LitTok(y), Line], 0) == GoodExpr(Bin(op, Lit(x), Lit(y)), 3)
    ensures ParseExpr([LitTok(x), BinTok(op), Line, LitTok(y), Line], 0) == GoodExpr(Lost(Lit(x), Lit(y)), 4)
  {
    hide ParsePrec;
    OneOperator([LitTok(x), BinTok(op), LitTok(y), Line], op, x, y, 2);
    OneOperator([LitTok(x), BinTok(op), Line, LitTok(y), Line], op, x, y, 3);
  }

  lemma OneOperator(ts: seq<Token>, op: BinOp, x: Literal, y: Literal, at: nat)
    requires 2 <= at <= 3 && |ts| == at + 2 && ts[0] == LitTok(x) && ts[1] == BinTok(op)
    requires (at == 3 ==> ts[2] == Line) && ts[at] == LitTok(y) && ts[at + 1] == Line
    ensures ParseExpr(ts, 0) == GoodExpr(if at == 2 then Bin(op, Lit(x), Lit(y)) else Lost(Lit(x), Lit(y)), at + 1)
  {
    var e := if at == 2 then Bin(op, Lit(x), Lit(y)) else Lost(Lit(x), Lit(y));
    var prec := if at == 2 then BinPrec(op) + 1 else PREC_NONE + 1;
    assert SkipLines(ts, 3) == 3 || at == 2;
    assert SkipLines(ts, 2) == at;
    ReadLiteral(ts, at, y, prec);
    assert ParseInfix(ts, at + 1, 1, e) == GoodExpr(e, at + 1);
    assert ParseInfix(ts, 1, 1, Lit(x)) == GoodExpr(e, at + 1);
    assert ParsePrefix(ts, 0, true) == GoodExpr(Lit(x), 1);
  }

  /** `break` or `skip` as the last statement of a block: the block is refused if and only if a newline follows it. */
  lemma BreakNeedsBrace(ts: seq<Token>, pos: nat)
    requires pos < |ts| && ts[pos] in {BreakTok, SkipTok} && TokenAt(ts, SkipLines(ts, pos + 1)) == RBrace
    ensures ParseBlock(ts, pos).GoodStmt? <==> TokenAt(ts, pos + 1) != Line
    ensures TokenAt(ts, pos + 1) == Line ==> ParseBlock(ts, pos) == BadStmt(false)
  {
    var end := SkipLines(ts, pos + 1);
    assert ParseDeclaration(ts, pos).GoodStmt? && ParseDeclaration(ts, pos).next == pos + 1;
    assert ParsePrec(ts, end, PREC_ASSIGNMENT) == BadExpr(false);
    assert ParseStatement(ts, end) == BadStmt(false);
    if TokenAt(ts, pos + 1) == Line {
      assert ParseDeclaration(ts, pos + 1) == BadStmt(false);
    }
  }
}
