/**
  A `let` that stands directly in the body of an `if`: the compiler counts the local whichever
  way the condition turns out, the machine has it only if the body ran.
 */
module SkippedBranch {
  import opened Wrappers
  import opened Bytecode
  import opened Syntax
  import opened Semantics
  import opened CodeGen
  import opened Machine
  import opened Simulation
  import opened Correctness
  import opened LeakyBreak
  import opened Heights

  /** `if false { let x = none }` */
  const SkippedLet: Stmt := IfS(Lit(BoolLit(false)), Seq(LetS("x", Lit(NoneLit)), Nop), Nop)

  /** `let y = two; let z = three; g = y` */
  function YandZ(two: Double, three: Double): Stmt {
    Seq(LetS("y", Lit(NumberLit(two))), Seq(LetS("z", Lit(NumberLit(three))), Seq(ExprS(Assign("g", Var("y"))), Nop)))
  }

  /** All of it in one block. */
  function SkippingProgram(two: Double, three: Double): Stmt {
    Seq(BlockS(Seq(SkippedLet, YandZ(two, three))), Nop)
  }

  const SkippedCode: seq<Instr> := [PushFalse, JumpIfFalse(5), Pop, PushNone, Jump(1), Pop]
  const YandZCode: seq<Instr> := [Const(1), Const(2), GetLocal(2), SetGlobal(0, 3), Pop]
  const BlockEnd: seq<Instr> := [Pop, Pop, Pop]

  const WithX: Scope := [Local("", 0), Local("x", 1)]
  const WithY: Scope := [Local("", 0), Local("x", 1), Local("y", 1)]
  const WithZ: Scope := [Local("", 0), Local("x", 1), Local("y", 1), Local("z", 1)]

  lemma LetCompiled(x: string, l: Literal, sc: Scope, base: nat, back: Option<nat>)
    ensures var s := LetS(x, Lit(l));
      && Gen(s, sc, 1, base, back) == [GenLiteral(l, base)] && Declared(s, 1) == 1
      && Consts(s, sc, 1) == (if l.NumberLit? || l.StringLit? then [LiteralValue(l)] else [])
      && After(s, sc, 1) == sc + [Local(x, 1)]
  {
  }

  lemma SkippedCompiled()
    ensures Gen(SkippedLet, MainScope, 1, 1, None) == SkippedCode && Declared(SkippedLet, 1) == 1
    ensures Consts(SkippedLet, MainScope, 1) == [] && After(SkippedLet, MainScope, 1) == WithX
  {
    hide Size, EncodeAll, Encode, Patch, Gen, Consts, After, Declared, Branches;
    var y := LetS("x", Lit(NoneLit));
    LetCompiled("x", NoneLit, MainScope, 1, None);
    NopTail(y, MainScope, 1, 1, None);
    SeqDeclares(y, Nop);
    IfCompiled(Seq(y, Nop), [PushNone]);
    BranchCode();
  }

  lemma BranchCode()
    ensures [PushFalse] + Branches([PushNone], []) == SkippedCode
  {
    hide Encode, EncodeAll;
    assert Size([PushNone]) == 1 && Size([]) == 0;
  }

  lemma IfCompiled(y: Stmt, yes: seq<Instr>)
    requires Gen(y, MainScope, 1, 1, None) == yes && Consts(y, MainScope, 1) == []
    requires After(y, MainScope, 1) == WithX && Declared(y, 1) == 1
    ensures var s := IfS(Lit(BoolLit(false)), y, Nop);
      && Gen(s, MainScope, 1, 1, None) == [PushFalse] + Branches(yes, []) && Declared(s, 1) == 1
      && Consts(s, MainScope, 1) == [] && After(s, MainScope, 1) == WithX
  {
    hide Size, EncodeAll, Encode, Patch, Branches;
  }

  lemma YNames()
    ensures Resolve(WithZ, "y") == 2 && Resolve(WithZ, "g") == -1
  {
    assert WithZ[..3] == WithY && WithY[..2] == WithX;
    assert WithX[..1] == [Local("", 0)] && [Local("", 0)][..0] == [];
    assert Resolve([Local("", 0)], "g") == -1;
    assert Resolve(WithX, "g") == -1 && Resolve(WithY, "g") == -1;
  }

  lemma UseCompiled()
    ensures var a := ExprS(Assign("g", Var("y")));
      && Gen(a, WithZ, 1, 3, None) == [GetLocal(2), SetGlobal(0, 3), Pop] && Consts(a, WithZ, 1) == [StrV("g")]
      && Ok(a, WithZ, 1, false) && CleanS(a) && Declared(a, 1) == 0
  {
    hide Resolve;
    YNames();
    assert GenE(Var("y"), WithZ, 4) == [GetLocal(2)];
    assert GenE(Assign("g", Var("y")), WithZ, 3) == [GetLocal(2), SetGlobal(0, 3)];
    assert OkE(Var("y"), WithZ);
  }

  lemma YandZCompiled(two: Double, three: Double)
    ensures var s := YandZ(two, three);
      && Gen(s, WithX, 1, 1, None) == YandZCode && Consts(s, WithX, 1) == [NumV(two), NumV(three), StrV("g")]
      && Declared(s, 1) == 2
  {
    hide Size, EncodeAll, Encode, Gen, Consts, After, Resolve, Declared;
    var y, z, a := LetS("y", Lit(NumberLit(two))), LetS("z", Lit(NumberLit(three))), ExprS(Assign("g", Var("y")));
    LetCompiled("y", NumberLit(two), WithX, 1, None);
    LetCompiled("z", NumberLit(three), WithY, 2, None);
    assert WithX + [Local("y", 1)] == WithY && WithY + [Local("z", 1)] == WithZ;
    UseCompiled();
    NopTail(a, WithZ, 1, 3, None);
    SeqGen(z, Seq(a, Nop), WithY, 1, 2, None);
    SeqGen(y, Seq(z, Seq(a, Nop)), WithX, 1, 1, None);
    SeqDeclares(a, Nop);
    SeqDeclares(z, Seq(a, Nop));
    SeqDeclares(y, Seq(z, Seq(a, Nop)));
    assert [Const(1)] + ([Const(2)] + [GetLocal(2), SetGlobal(0, 3), Pop]) == YandZCode;
    assert [NumV(two)] + ([NumV(three)] + [StrV("g")]) == [NumV(two), NumV(three), StrV("g")];
  }

  lemma SeqDeclares(a: Stmt, b: Stmt)
    ensures Declared(Seq(a, b), 1) == Declared(a, 1) + Declared(b, 1) && Declared(Nop, 1) == 0
  {
  }

  lemma ThreePops()
    ensures Pops(3) == BlockEnd
  {
    assert Pops(2) == [Pop] + Pops(1) && Pops(1) == [Pop] + Pops(0);
  }

  lemma SkippingCompiled(two: Double, three: Double)
    ensures var s := SkippingProgram(two, three);
      && GenProgram(s) == SkippedCode + YandZCode + BlockEnd + MainEnd
      && ConstsProgram(s) == [NoneV, NumV(two), NumV(three), StrV("g")]
  {
    hide Size, EncodeAll, Encode, Patch, Declared, After, Pops;
    var b := Seq(SkippedLet, YandZ(two, three));
    SkippedCompiled();
    YandZCompiled(two, three);
    SeqDeclares(SkippedLet, YandZ(two, three));
    ThreePops();
    hide Gen, Consts, YandZ;
    SeqGen(SkippedLet, YandZ(two, three), MainScope, 1, 1, None);
    BlockCompiled(b, 3);
    NopTail(BlockS(b), MainScope, 0, 1, None);
    assert SkippedCode + YandZCode + BlockEnd == (SkippedCode + YandZCode) + BlockEnd;
  }

  lemma BlockCompiled(b: Stmt, n: nat)
    requires Declared(b, 1) == n
    ensures Gen(BlockS(b), MainScope, 0, 1, None) == Gen(b, MainScope, 1, 1, None) + Pops(n)
    ensures Consts(BlockS(b), MainScope, 0) == Consts(b, MainScope, 1)
  {
  }

  /** The compiler has nothing to object to. */
  lemma SkippedAccepted()
    ensures CleanS(SkippedLet) && Ok(SkippedLet, MainScope, 1, false) && Declared(SkippedLet, 1) == 1
    ensures !Framed(SkippedLet, 1, 1, None)
  {
    hide After, Ok, Framed, Declared, Redeclared;
    var l := LetS("x", Lit(NoneLit));
    assert CleanS(l) && CleanS(Seq(l, Nop));
    FirstLet();
    NopAccepted(After(l, MainScope, 1));
    NopAccepted(After(Seq(l, Nop), MainScope, 1));
    SeqAccepted(l, Nop, MainScope, 1, false);
    LetCompiled("x", NoneLit, MainScope, 1, None);
    SeqDeclares(l, Nop);
    IfAccepted(Seq(l, Nop));
  }

  lemma FirstLet()
    ensures Ok(LetS("x", Lit(NoneLit)), MainScope, 1, false)
  {
    assert MainScope[0].depth == 0;
    assert !Redeclared(MainScope, 1, "x");
  }

  lemma IfAccepted(y: Stmt)
    requires Ok(y, MainScope, 1, false) && Ok(Nop, After(y, MainScope, 1), 1, false) && Declared(y, 1) == 1
    ensures var s := IfS(Lit(BoolLit(false)), y, Nop);
      Ok(s, MainScope, 1, false) && Declared(s, 1) == 1 && !Framed(s, 1, 1, None)
  {
    hide After;
  }

  lemma YandZAccepted(two: Double, three: Double)
    ensures CleanS(YandZ(two, three)) && Ok(YandZ(two, three), WithX, 1, false)
  {
    hide Ok, After, Resolve, Redeclared, Gen, Consts;
    var y, z, a := LetS("y", Lit(NumberLit(two))), LetS("z", Lit(NumberLit(three))), ExprS(Assign("g", Var("y")));
    UseCompiled();
    LetCompiled("y", NumberLit(two), WithX, 1, None);
    LetCompiled("z", NumberLit(three), WithY, 1, None);
    assert WithX + [Local("y", 1)] == WithY && WithY + [Local("z", 1)] == WithZ;
    FreshNames();
    FreshLet("y", two, WithX);
    FreshLet("z", three, WithY);
    NopAccepted(After(a, WithZ, 1));
    SeqAccepted(a, Nop, WithZ, 1, false);
    SeqAccepted(z, Seq(a, Nop), WithY, 1, false);
    SeqAccepted(y, Seq(z, Seq(a, Nop)), WithX, 1, false);
    assert CleanS(Seq(a, Nop)) && CleanS(Seq(z, Seq(a, Nop)));
  }

  lemma NopAccepted(sc: Scope)
    ensures Ok(Nop, sc, 1, false)
  {
  }

  lemma FreshLet(x: string, n: Double, sc: Scope)
    requires !Redeclared(sc, 1, x) && |sc| < LOCAL_MAX
    ensures Ok(LetS(x, Lit(NumberLit(n))), sc, 1, false)
  {
    hide Redeclared;
  }

  lemma FreshNames()
    ensures !Redeclared(WithX, 1, "y") && !Redeclared(WithY, 1, "z")
  {
    assert WithY[..2] == WithX && WithX[..1] == [Local("", 0)];
    assert !Redeclared([Local("", 0)], 1, "y") && !Redeclared([Local("", 0)], 1, "z");
    assert !Redeclared(WithX, 1, "z");
  }

  lemma SkippingAccepted(two: Double, three: Double)
    ensures var s := SkippingProgram(two, three);
      CleanS(s) && Ok(s, MainScope, 0, false) && AllFit(GenProgram(s)) && !Framed(s, 0, 1, None)
  {
    hide Ok, Framed, After, GenProgram, YandZ, AllFit, Gen, Consts, Declared;
    var b := Seq(SkippedLet, YandZ(two, three));
    SkippingCompiled(two, three);
    SkippedCompiled();
    SkippedAccepted();
    YandZAccepted(two, three);
    SeqAccepted(SkippedLet, YandZ(two, three), MainScope, 1, false);
    BlockAccepted(b, MainScope, false);
    assert CleanS(b) && CleanS(BlockS(b));
    UnframedFirst(SkippedLet, YandZ(two, three));
    SkippingFits();
  }

  lemma SkippingFits()
    ensures AllFit(SkippedCode + YandZCode + BlockEnd + MainEnd)
  {
  }

  lemma UnframedFirst(a: Stmt, b: Stmt)
    requires !Framed(a, 1, 1, None)
    ensures !Framed(Seq(BlockS(Seq(a, b)), Nop), 0, 1, None)
  {
    assert !Framed(Seq(a, b), 1, 1, None);
    assert !Framed(BlockS(Seq(a, b)), 0, 1, None);
  }

  lemma FetchNext(fetch: Fetch, pc: nat, code: seq<Instr>, k: nat)
    requires k < |code| && InstrsAt(fetch, pc, code[k..])
    ensures Fetches(fetch, pc, code[k], pc + Len(code[k])) && InstrsAt(fetch, pc + Len(code[k]), code[k + 1..])
  {
    hide InstrsAt, Fetches, Encode, Len;
    assert code[k..] == [code[k]] + code[k + 1..];
    FetchOne(fetch, pc, code[k], code[k + 1..]);
  }

  lemma SkippedFetched(fetch: Fetch)
    requires InstrsAt(fetch, 0, SkippedCode + YandZCode + BlockEnd + MainEnd)
    ensures Fetches(fetch, 0, PushFalse, 1) && Fetches(fetch, 1, JumpIfFalse(5), 4) && Fetches(fetch, 9, Pop, 10)
    ensures InstrsAt(fetch, 10, YandZCode + BlockEnd + MainEnd)
  {
    hide InstrsAt, Fetches, Encode;
    var code := SkippedCode + YandZCode + BlockEnd + MainEnd;
    assert code[0..] == code && code[6..] == YandZCode + BlockEnd + MainEnd;
    FetchNext(fetch, 0, code, 0);
    FetchNext(fetch, 1, code, 1);
    FetchNext(fetch, 4, code, 2);
    FetchNext(fetch, 5, code, 3);
    FetchNext(fetch, 6, code, 4);
    FetchNext(fetch, 9, code, 5);
  }

  lemma YandZFetched(fetch: Fetch)
    requires InstrsAt(fetch, 10, YandZCode + BlockEnd + MainEnd)
    ensures Fetches(fetch, 10, Const(1), 12) && Fetches(fetch, 12, Const(2), 14) && Fetches(fetch, 14, GetLocal(2), 16)
    ensures Fetches(fetch, 16, SetGlobal(0, 3), 19) && Fetches(fetch, 19, Pop, 20)
    ensures InstrsAt(fetch, 20, BlockEnd + MainEnd)
  {
    hide InstrsAt, Fetches, Encode;
    var code := YandZCode + BlockEnd + MainEnd;
    assert code[0..] == code && code[5..] == BlockEnd + MainEnd;
    FetchNext(fetch, 10, code, 0);
    FetchNext(fetch, 12, code, 1);
    FetchNext(fetch, 14, code, 2);
    FetchNext(fetch, 16, code, 3);
    FetchNext(fetch, 19, code, 4);
  }

  lemma EndFetched(fetch: Fetch)
    requires InstrsAt(fetch, 20, BlockEnd + MainEnd)
    ensures Fetches(fetch, 20, Pop, 21) && Fetches(fetch, 21, Pop, 22) && Fetches(fetch, 22, Pop, 23)
    ensures Fetches(fetch, 23, PushNone, 24) && Fetches(fetch, 24, Return, 25)
  {
    hide InstrsAt, Fetches, Encode;
    var code := BlockEnd + MainEnd;
    assert code[0..] == code;
    FetchNext(fetch, 20, code, 0);
    FetchNext(fetch, 21, code, 1);
    FetchNext(fetch, 22, code, 2);
    FetchNext(fetch, 23, code, 3);
    FetchNext(fetch, 24, code, 4);
  }

  lemma SkipRuns(p: Program, self: Value, g: Globals)
    requires InstrsAt(p.fetch, 0, SkippedCode + YandZCode + BlockEnd + MainEnd)
    ensures Goes(p, Initial(self, g), Running(10, [self], g))
  {
    hide Goes, InstrsAt, Encode, EncodeAll, Size;
    var c := Initial(self, g);
    SkippedFetched(p.fetch);
    GoesNowhere(p, c);
    assert [self] + [BoolV(false)] == [self, BoolV(false)];
    GoesOneMore(p, c, Running(0, [self], g));
    GoesOneMore(p, c, Running(1, [self, BoolV(false)], g));
    GoesOneMore(p, c, Running(9, [self, BoolV(false)], g));
  }

  /** Without `x` every later local stands one slot too low, and the slot of `y` is that of `z`. */
  lemma SkippingRuns(p: Program, self: Value, g: Globals, two: Value, three: Value)
    requires InstrsAt(p.fetch, 0, SkippedCode + YandZCode + BlockEnd + MainEnd)
    requires p.pool == [NoneV, two, three, StrV("g")] && "g" in g
    ensures Goes(p, Initial(self, g), Running(19, [self, two, three, three], g["g" := three]))
  {
    hide Goes, InstrsAt, Encode, EncodeAll, Size;
    var c := Initial(self, g);
    SkipRuns(p, self, g);
    SkippedFetched(p.fetch);
    YandZFetched(p.fetch);
    assert [self] + [two] == [self, two];
    assert [self, two] + [three] == [self, two, three] && [self, two, three] + [three] == [self, two, three, three];
    GoesOneMore(p, c, Running(10, [self], g));
    GoesOneMore(p, c, Running(12, [self, two], g));
    GoesOneMore(p, c, Running(14, [self, two, three], g));
    GoesOneMore(p, c, Running(16, [self, two, three, three], g));
  }

  /** The end of the block pops the slot of the function, so that the return pops below the stack. */
  lemma SkippingEnds(p: Program, c: Config, self: Value, g: Globals, two: Value, three: Value)
    requires InstrsAt(p.fetch, 0, SkippedCode + YandZCode + BlockEnd + MainEnd)
    requires Goes(p, c, Running(19, [self, two, three, three], g))
    ensures Goes(p, c, Stuck)
  {
    hide Goes, InstrsAt, Encode, EncodeAll, Size;
    SkippedFetched(p.fetch);
    YandZFetched(p.fetch);
    EndFetched(p.fetch);
    assert [self, two, three, three][..3] == [self, two, three] && [self, two, three][..2] == [self, two];
    assert [self, two][..1] == [self] && [self][..0] == [] && [NoneV][..0] == [];
    GoesOneMore(p, c, Running(19, [self, two, three, three], g));
    GoesOneMore(p, c, Running(20, [self, two, three], g));
    GoesOneMore(p, c, Running(21, [self, two], g));
    GoesOneMore(p, c, Running(22, [self], g));
    var empty: seq<Value> := [];
    assert empty + [NoneV] == [NoneV];
    GoesOneMore(p, c, Running(23, empty, g));
    GoesOneMore(p, c, Running(24, [NoneV], g));
  }

  lemma YandZMeans(m: Arith, env: Locals, g: Globals, two: Double, three: Double)
    requires "g" in g && Find(env, "g") < 0
    ensures CleanS(YandZ(two, three))
    ensures Exec(m, YandZ(two, three), 1, env, g, 1) ==
            Normal(env + [Binding("y", NumV(two)), Binding("z", NumV(three))], g["g" := NumV(two)])
  {
    hide Exec;
    var y, z, a := LetS("y", Lit(NumberLit(two))), LetS("z", Lit(NumberLit(three))), ExprS(Assign("g", Var("y")));
    var env1 := env + [Binding("y", NumV(two))];
    var env2, g1 := env1 + [Binding("z", NumV(three))], g["g" := NumV(two)];
    assert env2 == env + [Binding("y", NumV(two)), Binding("z", NumV(three))];
    assert CleanS(a) && CleanS(Seq(a, Nop)) && CleanS(Seq(z, Seq(a, Nop)));
    LetMeans(m, "y", NumberLit(two), env, g);
    LetMeans(m, "z", NumberLit(three), env1, g);
    UseMeans(m, env2, g, NumV(two)) by {
      YFound(env, NumV(two), NumV(three));
    }
    NopMeans(m, env2, g1);
    SeqMeans(m, a, Nop, env2, g, env2, g1);
    SeqMeans(m, z, Seq(a, Nop), env1, g, env2, g);
    SeqMeans(m, y, Seq(z, Seq(a, Nop)), env, g, env1, g);
  }

  lemma LetMeans(m: Arith, x: string, l: Literal, env: Locals, g: Globals)
    ensures Exec(m, LetS(x, Lit(l)), 1, env, g, 1) == Normal(env + [Binding(x, LiteralValue(l))], g)
  {
  }

  lemma NopMeans(m: Arith, env: Locals, g: Globals)
    ensures Exec(m, Nop, 1, env, g, 1) == Normal(env, g)
  {
  }

  lemma SeqMeans(m: Arith, a: Stmt, b: Stmt, env: Locals, g: Globals, env1: Locals, g1: Globals)
    requires CleanS(a) && CleanS(b) && Exec(m, a, 1, env, g, 1) == Normal(env1, g1)
    ensures CleanS(Seq(a, b)) && Exec(m, Seq(a, b), 1, env, g, 1) == Exec(m, b, 1, env1, g1, 1)
  {
  }

  lemma YFound(env: Locals, two: Value, three: Value)
    requires Find(env, "g") < 0
    ensures var env2 := env + [Binding("y", two)] + [Binding("z", three)];
      Find(env2, "y") == |env| && env2[|env|].value == two && Find(env2, "g") < 0
  {
    var env1 := env + [Binding("y", two)];
    var env2 := env1 + [Binding("z", three)];
    assert env2[..|env1|] == env1 && env1[..|env|] == env;
    assert Find(env1, "y") == |env| && Find(env1, "g") == -1;
  }

  lemma UseMeans(m: Arith, env: Locals, g: Globals, v: Value)
    requires "g" in g && Find(env, "g") < 0 && Find(env, "y") >= 0 && env[Find(env, "y")].value == v
    ensures Exec(m, ExprS(Assign("g", Var("y"))), 1, env, g, 1) == Normal(env, g["g" := v])
  {
    hide Find;
    assert Eval(m, Var("y"), env, g) == Got(v, env, g);
  }

  lemma SkippingMeans(m: Arith, self: Value, g: Globals, two: Double, three: Double)
    requires "g" in g
    ensures var s := SkippingProgram(two, three);
      CleanS(s) && Meaning(s, m, self, g, 1) == Normal([Binding("", self)], g["g" := NumV(two)])
  {
    hide Exec, YandZ;
    var env, b := [Binding("", self)], Seq(SkippedLet, YandZ(two, three));
    assert Find(env, "g") < 0 by { assert env[..0] == []; }
    SkippedMeans(m, env, g);
    YandZMeans(m, env, g, two, three);
    SeqMeans(m, SkippedLet, YandZ(two, three), env, g, env, g);
    BlockMeans(m, b, env, g, [Binding("y", NumV(two)), Binding("z", NumV(three))], g["g" := NumV(two)]);
  }

  lemma SkippedMeans(m: Arith, env: Locals, g: Globals)
    ensures CleanS(SkippedLet) && Exec(m, SkippedLet, 1, env, g, 1) == Normal(env, g)
  {
    assert CleanS(Seq(LetS("x", Lit(NoneLit)), Nop));
    assert Eval(m, Lit(BoolLit(false)), env, g) == Got(BoolV(false), env, g);
  }

  lemma BlockMeans(m: Arith, b: Stmt, env: Locals, g: Globals, made: Locals, g1: Globals)
    requires CleanS(b) && Exec(m, b, 1, env, g, 1) == Normal(env + made, g1)
    ensures CleanS(Seq(BlockS(b), Nop)) && Exec(m, Seq(BlockS(b), Nop), 0, env, g, 1) == Normal(env, g1)
  {
    assert (env + made)[..|env|] == env;
    assert Exec(m, BlockS(b), 0, env, g, 1) == Normal(env, g1);
    assert Exec(m, Nop, 0, env, g1, 1) == Normal(env, g1);
  }

  /**
    A `let` in a branch that is not taken: the compiler accepts the program and some path
    through its bytes has the wrong height; run, it reads `z` for `y` and in the end pops
    below its stack, while the program means to set `g` to `y` and to finish.
   */
  lemma BranchSkipsLocal(m: Arith, self: Value, g: Globals, two: Double, three: Double)
    requires "g" in g
    ensures var s := SkippingProgram(two, three);
      && Accepted(s) && !HeightsRight(s)
      && Goes(Compiled(s, m), Initial(self, g), Running(19, [self, NumV(two), NumV(three), NumV(three)], g["g" := NumV(three)]))
      && Goes(Compiled(s, m), Initial(self, g), Stuck)
      && Resting(Meaning(s, m, self, g, 1)) == Halted(g["g" := NumV(two)])
  {
    hide Goes, Framed, AllFit, Ok, InstrsAt, CleanS, GenProgram, Exec, SkippingProgram;
    var s := SkippingProgram(two, three);
    SkippingAccepted(two, three);
    SkippingCompiled(two, three);
    HeightsExact(s);
    WholeCodeReadable(s, m);
    SkippingRuns(Compiled(s, m), self, g, NumV(two), NumV(three));
    SkippingEnds(Compiled(s, m), Initial(self, g), self, g["g" := NumV(three)], NumV(two), NumV(three));
    SkippingMeans(m, self, g, two, three);
  }
}
