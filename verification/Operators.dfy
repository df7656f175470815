/**
  What compiled operators do: which operand is which, what each operator yields on values of
  every kind, and with which error it ends the program where it yields nothing.
 */
module Operators {
  import opened Wrappers
  import opened Bytecode
  import opened Syntax
  import opened Semantics
  import opened CodeGen
  import opened Machine
  import opened Simulation
  import opened Execution
  import opened Correctness
  import opened ShortPrograms

  /** The compiled program comes to rest like that, whatever the globals are and whatever runs it. */
  ghost predicate Ends(s: Stmt, m: Arith, self: Value, g: Globals, d: Config) {
    Goes(Compiled(s, m), Initial(self, g), d)
  }

  /** `let x = e` as a whole program. */
  function Program(x: string, e: Expr): Stmt {
    Seq(LetS(x, e), Nop)
  }

  /** Its literals. */
  function Num(a: Double): Expr {
    Lit(NumberLit(a))
  }

  function Str(t: string): Expr {
    Lit(StringLit(t))
  }

  /** The value of an expression, or its error, is what the program ends with. */
  lemma ProgramEnds(m: Arith, self: Value, g: Globals, x: string, e: Expr)
    requires Clean(e) && OkE(e, MainScope) && NodesE(e) < NODES_MAX
    ensures Ends(Program(x, e), m, self, g,
      match Eval(m, e, [Binding("", self)], g)
      case Got(v, _, g1) => Halted(g1[x := v])
      case Raised(err, g1) => Crashed(err, g1))
  {
    hide Eval, OkE, Goes, Clean, NodesE;
    var s := Program(x, e);
    ProgramCompilable(x, e);
    hide Compilable;
    ProgramMeans(m, self, g, x, e);
    CompilerCorrect(s, m, self, g, 0);
  }

  lemma ProgramCompilable(x: string, e: Expr)
    requires Clean(e) && OkE(e, MainScope) && NodesE(e) < NODES_MAX
    ensures Compilable(Program(x, e))
  {
    hide OkE, Clean, NodesE, AllFit, GenProgram;
    var l := LetS(x, e);
    assert CleanS(l) && Ok(l, MainScope, 0, false) && Framed(l, 0, 1, None) && Nodes(l) == 1 + NodesE(e);
    assert Ok(Nop, MainScope, 0, false) && Framed(Nop, 0, 1, None) && Nodes(Nop) == 0;
    ShortCompilable(Program(x, e));
  }

  lemma ProgramMeans(m: Arith, self: Value, g: Globals, x: string, e: Expr)
    requires Clean(e)
    ensures CleanS(Program(x, e)) &&
      match Eval(m, e, [Binding("", self)], g)
      case Got(v, env, g1) => Meaning(Program(x, e), m, self, g, 0) == Normal(env, g1[x := v])
      case Raised(err, g1) => Meaning(Program(x, e), m, self, g, 0) == Failed(err, g1)
  {
    hide Eval, Clean;
    var env := [Binding("", self)];
    assert CleanS(LetS(x, e)) && CleanS(Program(x, e));
    match Eval(m, e, env, g) {
      case Got(v, env1, g1) =>
        assert Exec(m, LetS(x, e), 0, env, g, 0) == Normal(env1, g1[x := v]);
        assert Exec(m, Nop, 0, env1, g1[x := v], 0) == Normal(env1, g1[x := v]);
      case Raised(err, g1) =>
        assert Exec(m, LetS(x, e), 0, env, g, 0) == Failed(err, g1);
    }
  }

  /** A program of one operator and two literals. */
  lemma BinaryEnds(m: Arith, self: Value, g: Globals, x: string, op: BinOp, u: Literal, v: Literal)
    ensures Ends(Program(x, Bin(op, Lit(u), Lit(v))), m, self, g,
      match Apply(m, op, LiteralValue(u), LiteralValue(v))
      case Result(w) => Halted(g[x := w])
      case Error(err) => Crashed(err, g))
  {
    hide Apply, Goes;
    var e := Bin(op, Lit(u), Lit(v));
    assert NodesE(e) == 3 && OkE(e, MainScope) && Clean(e);
    ProgramEnds(m, self, g, x, e);
    var env := [Binding("", self)];
    assert Eval(m, Lit(u), env, g) == Got(LiteralValue(u), env, g) && Eval(m, Lit(v), env, g) == Got(LiteralValue(v), env, g);
  }

  /** Arithmetic on numbers, the left operand first. */
  lemma NumbersCompute(m: Arith, self: Value, g: Globals, x: string, op: BinOp, a: Double, b: Double)
    requires op in {Add, Sub, Mul, Pow, Div, Mod}
    ensures Ends(Program(x, Bin(op, Num(a), Num(b))), m, self, g,
      if op in {Div, Mod} && m.isZero(b) then Crashed(DivByZero, g)
      else if op == Mod && m.isZeroInt(b) then Crashed(Trap, g)
      else Halted(g[x := NumV(m.binary(op, a, b))]))
  {
    hide Goes;
    BinaryEnds(m, self, g, x, op, NumberLit(a), NumberLit(b));
  }

  /** Comparison of numbers; equality is that of numbers, not of their patterns. */
  lemma NumbersCompare(m: Arith, self: Value, g: Globals, x: string, op: BinOp, a: Double, b: Double)
    requires op in {Less, LessEq, Greater, GreaterEq, Equal, NotEq}
    ensures Ends(Program(x, Bin(op, Num(a), Num(b))), m, self, g,
      Halted(g[x := BoolV(if op == NotEq then !m.compare(Equal, a, b) else m.compare(op, a, b))]))
  {
    hide Goes;
    BinaryEnds(m, self, g, x, op, NumberLit(a), NumberLit(b));
  }

  /** Strings are joined and compared as texts. */
  lemma StringsJoin(m: Arith, self: Value, g: Globals, x: string, s: string, t: string)
    ensures Ends(Program(x, Bin(Concat, Str(s), Str(t))), m, self, g, Halted(g[x := StrV(s + t)]))
    ensures Ends(Program(x, Bin(Equal, Str(s), Str(t))), m, self, g, Halted(g[x := BoolV(s == t)]))
    ensures Ends(Program(x, Bin(NotEq, Str(s), Str(t))), m, self, g, Halted(g[x := BoolV(s != t)]))
  {
    hide Goes;
    BinaryEnds(m, self, g, x, Concat, StringLit(s), StringLit(t));
    BinaryEnds(m, self, g, x, Equal, StringLit(s), StringLit(t));
    BinaryEnds(m, self, g, x, NotEq, StringLit(s), StringLit(t));
  }

  /** Values that are not both numbers are equal if they are the same. */
  lemma OthersEqual(m: Arith, self: Value, g: Globals, x: string, u: Literal, v: Literal)
    requires !(u.NumberLit? && v.NumberLit?)
    ensures Ends(Program(x, Bin(Equal, Lit(u), Lit(v))), m, self, g, Halted(g[x := BoolV(u == v)]))
    ensures Ends(Program(x, Bin(NotEq, Lit(u), Lit(v))), m, self, g, Halted(g[x := BoolV(u != v)]))
  {
    hide Goes;
    BinaryEnds(m, self, g, x, Equal, u, v);
    BinaryEnds(m, self, g, x, NotEq, u, v);
  }

  /** Operands of the wrong kind end the program, before anything is divided; `in` has nothing to look into. */
  lemma WrongKindsFail(m: Arith, self: Value, g: Globals, x: string, op: BinOp, u: Literal, v: Literal)
    requires op !in {Equal, NotEq, Contain} && if op == Concat then !(u.StringLit? && v.StringLit?) else !(u.NumberLit? && v.NumberLit?)
    ensures Ends(Program(x, Bin(op, Lit(u), Lit(v))), m, self, g, Crashed(DiffTypes, g))
    ensures Ends(Program(x, Bin(Contain, Lit(u), Lit(v))), m, self, g, Crashed(WrongValue, g))
  {
    hide Goes;
    BinaryEnds(m, self, g, x, op, u, v);
    BinaryEnds(m, self, g, x, Contain, u, v);
  }

  /** Which literals count as false. */
  predicate False(v: Literal) {
    v == NoneLit || v == BoolLit(false)
  }

  lemma TestIsFalse(v: Literal)
    ensures Falsey(LiteralValue(v)) <==> False(v)
  {
  }

  /** A literal by itself, and behind a unary operator. */
  lemma UnaryEnds(m: Arith, self: Value, g: Globals, x: string, v: Literal)
    ensures Ends(Program(x, Lit(v)), m, self, g, Halted(g[x := Denoted(v)]))
    ensures Ends(Program(x, NotE(Lit(v))), m, self, g, Halted(g[x := BoolV(False(v))]))
    ensures Ends(Program(x, NegE(Lit(v))), m, self, g,
      if v.NumberLit? then Halted(g[x := NumV(m.negate(v.number))]) else Crashed(DiffTypes, g))
  {
    hide Goes;
    var env, e := [Binding("", self)], Lit(v);
    assert Eval(m, e, env, g) == Got(LiteralValue(v), env, g);
    ProgramEnds(m, self, g, x, e);
    ProgramEnds(m, self, g, x, NotE(e));
    ProgramEnds(m, self, g, x, NegE(e));
  }

  /** What a literal stands for. */
  function Denoted(v: Literal): Value {
    if v.NumberLit? then NumV(v.number)
    else if v.StringLit? then StrV(v.text)
    else if v.BoolLit? then BoolV(v.value)
    else NoneV
  }

  /** `and` and `or` yield truth values, and the second operand is not looked at where the first one decides. */
  lemma LogicEnds(m: Arith, self: Value, g: Globals, x: string, u: Literal, v: Literal)
    ensures Ends(Program(x, And(Lit(u), Lit(v))), m, self, g, Halted(g[x := BoolV(!False(u) && !False(v))]))
    ensures Ends(Program(x, Or(Lit(u), Lit(v))), m, self, g, Halted(g[x := BoolV(!False(u) || !False(v))]))
    ensures False(u) ==> Ends(Program(x, And(Lit(u), Fault(v))), m, self, g, Halted(g[x := BoolV(false)]))
    ensures !False(u) ==> Ends(Program(x, Or(Lit(u), Fault(v))), m, self, g, Halted(g[x := BoolV(true)]))
    ensures !False(u) ==> Ends(Program(x, And(Lit(u), Fault(v))), m, self, g, Crashed(WrongValue, g))
    ensures False(u) ==> Ends(Program(x, Or(Lit(u), Fault(v))), m, self, g, Crashed(WrongValue, g))
  {
    hide Ends, False, Eval;
    Plain(Lit(u));
    Plain(Lit(v));
    Plain(Fault(v));
    LogicValues(m, [Binding("", self)], g, u, v);
    ProgramEnds(m, self, g, x, And(Lit(u), Lit(v)));
    ProgramEnds(m, self, g, x, Or(Lit(u), Lit(v)));
    ProgramEnds(m, self, g, x, And(Lit(u), Fault(v)));
    ProgramEnds(m, self, g, x, Or(Lit(u), Fault(v)));
  }

  lemma LogicValues(m: Arith, env: Locals, g: Globals, u: Literal, v: Literal)
    ensures Eval(m, And(Lit(u), Lit(v)), env, g) == Got(BoolV(!False(u) && !False(v)), env, g)
    ensures Eval(m, Or(Lit(u), Lit(v)), env, g) == Got(BoolV(!False(u) || !False(v)), env, g)
    ensures Eval(m, And(Lit(u), Fault(v)), env, g) == if False(u) then Got(BoolV(false), env, g) else Raised(WrongValue, g)
    ensures Eval(m, Or(Lit(u), Fault(v)), env, g) == if False(u) then Raised(WrongValue, g) else Got(BoolV(true), env, g)
  {
    hide False, Falsey;
    TestIsFalse(u);
    TestIsFalse(v);
    assert Eval(m, Lit(u), env, g) == Got(LiteralValue(u), env, g) && Eval(m, Lit(v), env, g) == Got(LiteralValue(v), env, g);
    assert Eval(m, Fault(v), env, g) == Raised(WrongValue, g);
  }

  /** An expression that ends the program. */
  function Fault(v: Literal): Expr {
    Bin(Contain, Lit(v), Lit(v))
  }

  lemma Plain(e: Expr)
    requires e.Lit? || (e.Bin? && e.left.Lit? && e.right.Lit?)
    ensures Clean(e) && OkE(e, MainScope) && NodesE(e) <= 3
  {
  }

  /** A global by its name; there is none before it is defined. */
  lemma GlobalEnds(m: Arith, self: Value, g: Globals, x: string, y: string)
    requires y != ""
    ensures Ends(Program(x, Var(y)), m, self, g, if y in g then Halted(g[x := g[y]]) else Crashed(UndefErr(y), g))
  {
    hide Goes;
    var env := [Binding("", self)];
    OnlySelf(self, y);
    ProgramEnds(m, self, g, x, Var(y));
  }

  lemma OnlySelf(self: Value, y: string)
    requires y != ""
    ensures Find([Binding("", self)], y) == -1 && Resolve(MainScope, y) == -1
  {
    assert [Binding("", self)][..0] == [] && MainScope[..0] == [];
  }

  /** Assigning to a global that is defined changes it, and has the value assigned. */
  lemma AssignEnds(m: Arith, self: Value, g: Globals, x: string, y: string, v: Literal)
    requires y != ""
    ensures Ends(Program(x, Assign(y, Lit(v))), m, self, g,
      if y in g then Halted(g[y := Denoted(v)][x := Denoted(v)]) else Crashed(UndefErr(y), g))
  {
    hide Goes, Find, Resolve;
    var env, e := [Binding("", self)], Lit(v);
    OnlySelf(self, y);
    assert Eval(m, e, env, g) == Got(LiteralValue(v), env, g);
    ProgramEnds(m, self, g, x, Assign(y, e));
  }

  /** An assigning operator has the variable for its left operand. */
  lemma UpdateEnds(m: Arith, self: Value, g: Globals, x: string, y: string, op: BinOp, b: Double)
    requires y != "" && op in {Add, Sub, Mul, Pow} && y in g && g[y].NumV?
    ensures var c := NumV(m.binary(op, g[y].number, b));
      Ends(Program(x, Update(y, op, Num(b))), m, self, g, Halted(g[y := c][x := c]))
  {
    hide Goes, Find, Resolve;
    var env := [Binding("", self)];
    OnlySelf(self, y);
    assert Eval(m, Num(b), env, g) == Got(NumV(b), env, g);
    ProgramEnds(m, self, g, x, Update(y, op, Num(b)));
  }

  /** `if v { let x = a } else { let x = b }` */
  function Choice(v: Literal, x: string, a: Double, b: Double): Stmt {
    Seq(IfS(Lit(v), Program(x, Num(a)), Program(x, Num(b))), Nop)
  }

  /** The second branch is taken exactly for none and false. */
  lemma ChoiceEnds(m: Arith, self: Value, g: Globals, v: Literal, x: string, a: Double, b: Double)
    ensures Ends(Choice(v, x, a, b), m, self, g, Halted(g[x := NumV(if False(v) then b else a)]))
  {
    hide Goes, Compilable, Exec;
    ChoiceCompilable(v, x, a, b);
    ChoiceMeans(m, self, g, v, x, a, b);
    CompilerCorrect(Choice(v, x, a, b), m, self, g, 0);
  }

  lemma ChoiceMeans(m: Arith, self: Value, g: Globals, v: Literal, x: string, a: Double, b: Double)
    ensures CleanS(Choice(v, x, a, b))
    ensures var env := [Binding("", self)];
      Meaning(Choice(v, x, a, b), m, self, g, 0) == Normal(env, g[x := NumV(if False(v) then b else a)])
  {
    hide False, Falsey;
    var env := [Binding("", self)];
    TestIsFalse(v);
    ProgramMeans(m, self, g, x, Num(a));
    ProgramMeans(m, self, g, x, Num(b));
    assert CleanS(Program(x, Num(a))) && CleanS(Program(x, Num(b)));
    assert Eval(m, Lit(v), env, g) == Got(LiteralValue(v), env, g);
    assert Eval(m, Num(a), env, g) == Got(NumV(a), env, g) && Eval(m, Num(b), env, g) == Got(NumV(b), env, g);
    var g1 := g[x := NumV(if False(v) then b else a)];
    assert Exec(m, IfS(Lit(v), Program(x, Num(a)), Program(x, Num(b))), 0, env, g, 0) == Normal(env, g1);
    assert Exec(m, Nop, 0, env, g1, 0) == Normal(env, g1);
  }

  lemma ChoiceCompilable(v: Literal, x: string, a: Double, b: Double)
    ensures Compilable(Choice(v, x, a, b))
  {
    hide AllFit, GenProgram;
    var i := IfS(Lit(v), Program(x, Num(a)), Program(x, Num(b)));
    LetIsPlain(x, a);
    LetIsPlain(x, b);
    assert CleanS(i) && Ok(i, MainScope, 0, false) && Framed(i, 0, 1, None) && Nodes(i) == 6;
    assert Ok(Nop, MainScope, 0, false) && Framed(Nop, 0, 1, None) && Nodes(Nop) == 0;
    ShortCompilable(Choice(v, x, a, b));
  }

  lemma LetIsPlain(x: string, a: Double)
    ensures var s := Program(x, Num(a));
      && CleanS(s) && Ok(s, MainScope, 0, false) && Framed(s, 0, 1, None) && Nodes(s) == 2
      && Declared(s, 0) == 0 && After(s, MainScope, 0) == MainScope
  {
    var l := LetS(x, Num(a));
    assert CleanS(l) && Ok(l, MainScope, 0, false) && Framed(l, 0, 1, None) && Nodes(l) == 2;
    assert Ok(Nop, MainScope, 0, false) && Framed(Nop, 0, 1, None) && Nodes(Nop) == 0;
  }
}
