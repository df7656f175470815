/**
  A `break` that leaves a block with locals: the compiler accepts it, and the machine then
  finds other values in the slots of later locals than the program means.
 */
module LeakyBreak {
  import opened Wrappers
  import opened Bytecode
  import opened Syntax
  import opened Semantics
  import opened CodeGen
  import opened Machine
  import opened Simulation
  import opened Correctness
  import Heights

  function LeakyLoop(two: Double): Stmt {
    WhileS(Lit(BoolLit(true)), LeakyBody(two))
  }

  /** The body of the leaking loop: `{ let b = two; break }`. */
  function LeakyBody(two: Double): Stmt {
    Seq(BlockS(Seq(LetS("b", Lit(NumberLit(two))), Seq(BreakS, Nop))), Nop)
  }

  function LateBlock(three: Double): Stmt {
    BlockS(Seq(LetS("c", Lit(NumberLit(three))), Seq(ExprS(Assign("g", Var("c"))), Nop)))
  }

  /** `while true { { let b = two; break } }`, then `{ let c = three; g = c }`. */
  function LeakyProgram(two: Double, three: Double): Stmt {
    Seq(LeakyLoop(two), Seq(LateBlock(three), Nop))
  }

  const LoopCode: seq<Instr> := [PushTrue, JumpIfFalse(10), Pop, Const(1), Jump(5), Pop, Loop(14), Pop]
  const LateCode: seq<Instr> := [Const(2), GetLocal(1), SetGlobal(0, 3), Pop, Pop]
  const MainEnd: seq<Instr> := [PushNone, Return, End]

  const InB: Scope := [Local("", 0), Local("b", 1)]
  const InC: Scope := [Local("", 0), Local("c", 1)]

  lemma Sizes()
    ensures Size([Pop]) == 1 && Size([BreakHole, Pop]) == 4 && Size([Const(1), BreakHole, Pop]) == 6
    ensures Size([PushTrue]) == 1 && Size([Const(2)]) == 2 && Size([Const(1)]) == 2
  {
    assert [BreakHole, Pop][1..] == [Pop];
    assert [Const(1), BreakHole, Pop][1..] == [BreakHole, Pop];
  }

  /** A block that declares one local. */
  lemma OneLocal(l: Stmt, k: Stmt, sc: Scope, base: nat, back: Option<nat>)
    requires Declared(l, 1) == 1 && Declared(k, 1) == 0
    ensures var first := Gen(l, sc, 1, base, back);
            Gen(BlockS(Seq(l, k)), sc, 0, base, back)
            == first + Gen(k, After(l, sc, 1), 1, base + |Consts(l, sc, 1)|, Further(back, Size(first))) + [Pop]
  {
    hide Size, Consts, After, Patch, Looped, Branches, GenE, ConstsE, Encode, EncodeAll;
    assert Pops(1) == [Pop] + Pops(0);
    assert Declared(Seq(l, k), 1) == 1;
  }

  lemma LetNumber(x: string, n: Double, base: nat, back: Option<nat>)
    ensures var l := LetS(x, Lit(NumberLit(n)));
            && Gen(l, MainScope, 1, base, back) == [Const(base)] && Consts(l, MainScope, 1) == [NumV(n)]
            && After(l, MainScope, 1) == [Local("", 0), Local(x, 1)] && Declared(l, 1) == 1
  {
  }

  lemma BodyCompiled(two: Double)
    ensures var b := Seq(LetS("b", Lit(NumberLit(two))), Seq(BreakS, Nop));
            && Gen(BlockS(b), MainScope, 0, 1, Some(5)) == [Const(1), BreakHole, Pop]
            && Consts(BlockS(b), MainScope, 0) == [NumV(two)]
  {
    hide Size, Patch, EncodeAll, Encode, Pops;
    var l, k := LetS("b", Lit(NumberLit(two))), Seq(BreakS, Nop);
    Sizes();
    LetNumber("b", two, 1, Some(5));
    NopTail(BreakS, InB, 1, 2, Some(7));
    OneLocal(l, k, MainScope, 1, Some(5));
    assert [Const(1)] + [BreakHole] + [Pop] == [Const(1), BreakHole, Pop];
  }

  lemma BodyPatched()
    ensures Patch([Const(1), BreakHole, Pop], 10) == [Const(1), Jump(5), Pop]
  {
    hide Size, EncodeAll, Encode, Patch;
    PatchCons(Const(1), [BreakHole, Pop], 10);
    PatchCons(BreakHole, [Pop], 8);
    PatchCons(Pop, [], 5);
    PatchNil(4);
    assert [Const(1), BreakHole, Pop] == [Const(1)] + [BreakHole, Pop] && [BreakHole, Pop] == [BreakHole] + [Pop];
    assert [Pop] == [Pop] + [];
  }

  lemma LoopPatched()
    ensures Looped([PushTrue], [Const(1), BreakHole, Pop]) == LoopCode && Size(LoopCode) == 15
  {
    hide Size, EncodeAll, Encode, Patch;
    Sizes();
    BodyPatched();
    LoopSize();
  }

  lemma LoopSize()
    ensures Size(LoopCode) == 15
  {
    hide Encode, EncodeAll;
    assert LoopCode[1..] == [JumpIfFalse(10), Pop, Const(1), Jump(5), Pop, Loop(14), Pop];
    assert LoopCode[1..][1..] == [Pop, Const(1), Jump(5), Pop, Loop(14), Pop];
    assert LoopCode[1..][1..][1..] == [Const(1), Jump(5), Pop, Loop(14), Pop];
    assert LoopCode[1..][1..][1..][1..] == [Jump(5), Pop, Loop(14), Pop];
    assert [Jump(5), Pop, Loop(14), Pop][1..] == [Pop, Loop(14), Pop];
    assert [Pop, Loop(14), Pop][1..] == [Loop(14), Pop];
    assert [Loop(14), Pop][1..] == [Pop];
    Sizes();
  }

  lemma LoopCompiled(two: Double)
    ensures Gen(LeakyLoop(two), MainScope, 0, 1, None) == LoopCode
    ensures Consts(LeakyLoop(two), MainScope, 0) == [NumV(two)] && After(LeakyLoop(two), MainScope, 0) == MainScope
  {
    hide Looped, Patch, Size, Encode, EncodeAll;
    var b := BlockS(Seq(LetS("b", Lit(NumberLit(two))), Seq(BreakS, Nop)));
    BodyCompiled(two);
    Sizes();
    LoopPatched();
    NopTail(b, MainScope, 0, 1, Some(5));
  }

  lemma NopTail(s: Stmt, sc: Scope, depth: nat, base: nat, back: Option<nat>)
    ensures Gen(Seq(s, Nop), sc, depth, base, back) == Gen(s, sc, depth, base, back)
    ensures Consts(Seq(s, Nop), sc, depth) == Consts(s, sc, depth)
    ensures After(Seq(s, Nop), sc, depth) == After(s, sc, depth)
  {
    var g := Gen(s, sc, depth, base, back);
    assert Gen(Nop, After(s, sc, depth), depth, base + |Consts(s, sc, depth)|, Further(back, Size(g))) == [];
    assert g + [] == g;
  }

  lemma Names()
    ensures Resolve(InC, "c") == 1 && Resolve(InC, "g") == -1
  {
    assert InC[..1] == [Local("", 0)];
    assert Resolve([Local("", 0)], "g") == -1 by {
      assert [Local("", 0)][..0] == [];
    }
  }

  lemma AssignCompiled(base: nat)
    ensures var a := ExprS(Assign("g", Var("c")));
            && Gen(a, InC, 1, base, None) == [GetLocal(1), SetGlobal(0, base), Pop] && Consts(a, InC, 1) == [StrV("g")]
  {
    hide Resolve;
    Names();
    assert GenE(Var("c"), InC, base + 1) == [GetLocal(1)];
    assert GenE(Assign("g", Var("c")), InC, base) == [GetLocal(1), SetGlobal(0, base)];
  }

  lemma LateCompiled(three: Double)
    ensures Gen(LateBlock(three), MainScope, 0, 2, None) == LateCode
    ensures Consts(LateBlock(three), MainScope, 0) == [NumV(three), StrV("g")]
  {
    hide Size, Patch, EncodeAll, Encode, Pops, Resolve, GenE, ConstsE;
    var l, a := LetS("c", Lit(NumberLit(three))), ExprS(Assign("g", Var("c")));
    LetNumber("c", three, 2, None);
    AssignCompiled(3);
    NopTail(a, InC, 1, 3, None);
    OneLocal(l, Seq(a, Nop), MainScope, 2, None);
    assert [Const(2)] + [GetLocal(1), SetGlobal(0, 3), Pop] + [Pop] == LateCode;
  }

  lemma LeakyCompiled(two: Double, three: Double)
    ensures var s := LeakyProgram(two, three);
            && GenProgram(s) == LoopCode + LateCode + MainEnd
            && ConstsProgram(s) == [NoneV, NumV(two), NumV(three), StrV("g")]
  {
    hide Size, Patch, EncodeAll, Encode, Gen, Consts, After;
    LoopCompiled(two);
    LateCompiled(three);
    NopTail(LateBlock(three), MainScope, 0, 2, None);
    SeqGen(LeakyLoop(two), Seq(LateBlock(three), Nop), MainScope, 0, 1, None);
    assert GenProgram(LeakyProgram(two, three)) == LoopCode + LateCode + MainEnd;
  }

  lemma BodyClean(two: Double)
    ensures CleanS(LeakyBody(two)) && !Framed(LeakyBody(two), 0, 1, Some(1))
    ensures Ok(LeakyBody(two), MainScope, 0, true)
  {
    hide Ok, Framed, After;
    var l, k := LetS("b", Lit(NumberLit(two))), Seq(BreakS, Nop);
    assert CleanS(k) && CleanS(Seq(l, k));
    LetAccepted("b", two, true);
    BreakAccepted(InB);
    SeqAccepted(l, k, MainScope, 1, true);
    BlockAccepted(Seq(l, k), MainScope, true);
    LeakUnframed(l);
    UnframedBlock(Seq(l, k));
  }

  lemma BreakAccepted(sc: Scope)
    ensures Ok(Seq(BreakS, Nop), sc, 1, true)
  {
  }

  lemma SeqAccepted(a: Stmt, b: Stmt, sc: Scope, depth: nat, inLoop: bool)
    requires Ok(a, sc, depth, inLoop) && Ok(b, After(a, sc, depth), depth, inLoop)
    ensures Ok(Seq(a, b), sc, depth, inLoop)
  {
    hide After;
  }

  lemma BlockAccepted(b: Stmt, sc: Scope, inLoop: bool)
    requires Ok(b, sc, 1, inLoop)
    ensures Ok(Seq(BlockS(b), Nop), sc, 0, inLoop)
  {
    hide After;
    assert Ok(BlockS(b), sc, 0, inLoop);
    assert Ok(Nop, After(BlockS(b), sc, 0), 0, inLoop);
  }

  /** The `break` stands one local above the loop's start. */
  lemma LeakUnframed(l: Stmt)
    requires Declared(l, 1) == 1 && Falls(l)
    ensures !Framed(Seq(l, Seq(BreakS, Nop)), 1, 1, Some(1))
  {
    hide Declared;
    assert !Framed(BreakS, 1, 2, Some(1));
    assert !Framed(Seq(BreakS, Nop), 1, 2, Some(1));
  }

  lemma UnframedBlock(b: Stmt)
    requires !Framed(b, 1, 1, Some(1))
    ensures !Framed(Seq(BlockS(b), Nop), 0, 1, Some(1))
  {
    assert !Framed(BlockS(b), 0, 1, Some(1));
  }

  lemma LoopAccepted(two: Double)
    ensures var s := LeakyLoop(two); CleanS(s) && Ok(s, MainScope, 0, false) && !Framed(s, 0, 1, None)
  {
    hide LeakyBody;
    BodyClean(two);
    LoopOf(LeakyBody(two));
  }

  lemma LoopOf(b: Stmt)
    requires CleanS(b) && Ok(b, MainScope, 0, true) && !Framed(b, 0, 1, Some(1))
    ensures var s := WhileS(Lit(BoolLit(true)), b); CleanS(s) && Ok(s, MainScope, 0, false) && !Framed(s, 0, 1, None)
  {
  }

  lemma LateAccepted(three: Double)
    ensures var s := LateBlock(three); CleanS(s) && Ok(s, MainScope, 0, false)
  {
    hide Resolve, GenE, ConstsE, Redeclared;
    var l, a := LetS("c", Lit(NumberLit(three))), ExprS(Assign("g", Var("c")));
    assert CleanS(Seq(a, Nop)) && CleanS(Seq(l, Seq(a, Nop)));
    LetAccepted("c", three, false);
    AssignAccepted();
    assert Ok(Seq(l, Seq(a, Nop)), MainScope, 1, false);
  }

  lemma LetAccepted(x: string, n: Double, inLoop: bool)
    ensures Ok(LetS(x, Lit(NumberLit(n))), MainScope, 1, inLoop)
    ensures After(LetS(x, Lit(NumberLit(n))), MainScope, 1) == [Local("", 0), Local(x, 1)]
  {
    assert MainScope[0].depth == 0;
  }

  lemma AssignAccepted()
    ensures Ok(Seq(ExprS(Assign("g", Var("c"))), Nop), InC, 1, false)
  {
    hide Resolve;
    Names();
    assert OkE(Var("c"), InC);
    assert Ok(ExprS(Assign("g", Var("c"))), InC, 1, false);
  }

  lemma LeakyAccepted(two: Double, three: Double)
    ensures var s := LeakyProgram(two, three);
            CleanS(s) && Ok(s, MainScope, 0, false) && AllFit(GenProgram(s)) && !Framed(s, 0, 1, None)
  {
    hide Gen, Consts, GenProgram, LeakyLoop, LateBlock;
    LeakyCompiled(two, three);
    LoopAccepted(two);
    LateAccepted(three);
    LoopCompiled(two);
    var b := Seq(LateBlock(three), Nop);
    assert CleanS(b) && Ok(b, MainScope, 0, false);
  }

  /** The slot of `b` is left on the stack. */
  lemma LoopRuns(p: Program, self: Value, g: Globals, two: Value, three: Value)
    requires InstrsAt(p.fetch, 0, LoopCode + LateCode + MainEnd)
    requires p.pool == [NoneV, two, three, StrV("g")]
    ensures Goes(p, Initial(self, g), Running(15, [self, two], g))
  {
    hide Goes, InstrsAt, Encode, EncodeAll, Size;
    var c := Initial(self, g);
    GoesNowhere(p, c);
    assert [self] + [BoolV(true)] == [self, BoolV(true)] && [self] + [two] == [self, two];
    LeakyFetched(p.fetch);
    GoesOneMore(p, c, Running(0, [self], g));
    GoesOneMore(p, c, Running(1, [self, BoolV(true)], g));
    GoesOneMore(p, c, Running(4, [self, BoolV(true)], g));
    GoesOneMore(p, c, Running(5, [self], g));
    GoesOneMore(p, c, Running(7, [self, two], g));
  }

  /** So `c` is read from it. */
  lemma LateRuns(p: Program, c: Config, self: Value, g: Globals, two: Value, three: Value)
    requires InstrsAt(p.fetch, 0, LoopCode + LateCode + MainEnd)
    requires p.pool == [NoneV, two, three, StrV("g")] && "g" in g
    requires Goes(p, c, Running(15, [self, two], g))
    ensures Goes(p, c, Running(22, [self, two, three, two], g["g" := two]))
  {
    hide Goes, InstrsAt, Encode, EncodeAll, Size;
    assert [self, two] + [three] == [self, two, three] && [self, two, three] + [two] == [self, two, three, two];
    LeakyFetched(p.fetch);
    GoesOneMore(p, c, Running(15, [self, two], g));
    GoesOneMore(p, c, Running(17, [self, two, three], g));
    GoesOneMore(p, c, Running(19, [self, two, three, two], g));
  }

  lemma LeakyRuns(p: Program, self: Value, g: Globals, two: Value, three: Value)
    requires InstrsAt(p.fetch, 0, LoopCode + LateCode + MainEnd)
    requires p.pool == [NoneV, two, three, StrV("g")] && "g" in g
    ensures Goes(p, Initial(self, g), Halted(g["g" := two]))
  {
    hide Goes, InstrsAt, Encode, EncodeAll, Size;
    var c, g1 := Initial(self, g), g["g" := two];
    LoopRuns(p, self, g, two, three);
    LateRuns(p, c, self, g, two, three);
    assert [self, two] + [NoneV] == [self, two, NoneV];
    assert [self, two, three, two][..3] == [self, two, three] && [self, two, three][..2] == [self, two];
    LeakyFetched(p.fetch);
    GoesOneMore(p, c, Running(22, [self, two, three, two], g1));
    GoesOneMore(p, c, Running(23, [self, two, three], g1));
    GoesOneMore(p, c, Running(24, [self, two], g1));
    GoesOneMore(p, c, Running(25, [self, two, NoneV], g1));
  }

  predicate Fetches(fetch: Fetch, pc: nat, i: Instr, next: nat) {
    fetch(pc) == Some(Decoded(i, next))
  }

  lemma LeakyFetched(fetch: Fetch)
    requires InstrsAt(fetch, 0, LoopCode + LateCode + MainEnd)
    ensures Fetches(fetch, 0, PushTrue, 1) && Fetches(fetch, 1, JumpIfFalse(10), 4) && Fetches(fetch, 4, Pop, 5)
    ensures Fetches(fetch, 5, Const(1), 7) && Fetches(fetch, 7, Jump(5), 10)
    ensures Fetches(fetch, 15, Const(2), 17) && Fetches(fetch, 17, GetLocal(1), 19)
    ensures Fetches(fetch, 19, SetGlobal(0, 3), 22) && Fetches(fetch, 22, Pop, 23) && Fetches(fetch, 23, Pop, 24)
    ensures Fetches(fetch, 24, PushNone, 25) && Fetches(fetch, 25, Return, 26)
  {
    hide Encode, EncodeAll, InstrsAt;
    InstrsAtAppend(fetch, 0, LoopCode + LateCode, MainEnd);
    InstrsAtAppend(fetch, 0, LoopCode, LateCode);
    LoopSize();
    LateSize();
    TwoSizes(LoopCode, LateCode);
    LoopFetched(fetch);
    LateFetched(fetch);
  }

  /**
    Leaving a block with `break` leaves its locals on the stack: the compiler accepts the
    program, some path through whose code has the wrong height; it means to set `g` to the
    one number, and run, it sets it to the other.
   */
  lemma BreakLeaksLocals(m: Arith, self: Value, g: Globals, two: Double, three: Double)
    requires "g" in g
    ensures var s := LeakyProgram(two, three);
            && CleanS(s) && Ok(s, MainScope, 0, false) && AllFit(GenProgram(s)) && !Heights.HeightsRight(s)
            && Goes(Compiled(s, m), Initial(self, g), Halted(g["g" := NumV(two)]))
            && Resting(Meaning(s, m, self, g, 1)) == Halted(g["g" := NumV(three)])
  {
    hide Goes, Framed, AllFit, Ok, InstrsAt, CleanS, GenProgram, Exec;
    var s := LeakyProgram(two, three);
    LeakyAccepted(two, three);
    Heights.HeightsExact(s);
    LeakyCompiled(two, three);
    WholeCodeReadable(s, m);
    LeakyRuns(Compiled(s, m), self, g, NumV(two), NumV(three));
    LeakyMeans(m, self, g, two, three);
  }

  lemma LeakyMeans(m: Arith, self: Value, g: Globals, two: Double, three: Double)
    requires "g" in g
    ensures var s := LeakyProgram(two, three);
            CleanS(s) && Resting(Meaning(s, m, self, g, 1)) == Halted(g["g" := NumV(three)])
  {
    hide LeakyLoop, LateBlock;
    var env, g1 := [Binding("", self)], g["g" := NumV(three)];
    LeakyAccepted(two, three);
    LoopMeans(m, env, g, two);
    LateMeans(m, env, g, three);
    var b := Seq(LateBlock(three), Nop);
    assert CleanS(b) && Exec(m, b, 0, env, g, 1) == Normal(env, g1);
  }

  lemma LoopMeans(m: Arith, env: Locals, g: Globals, two: Double)
    ensures CleanS(LeakyLoop(two)) && Exec(m, LeakyLoop(two), 0, env, g, 1) == Normal(env, g)
  {
    LoopAccepted(two);
    var l, k := LetS("b", Lit(NumberLit(two))), Seq(BreakS, Nop);
    var b := BlockS(Seq(l, k));
    var env1 := env + [Binding("b", NumV(two))];
    assert Exec(m, l, 1, env, g, 1) == Normal(env1, g);
    assert CleanS(k) && Exec(m, k, 1, env1, g, 1) == Broke(env1, g);
    assert env1[..|env|] == env;
    assert CleanS(b) && Exec(m, b, 0, env, g, 1) == Broke(env, g);
    assert CleanS(Seq(b, Nop)) && Exec(m, Seq(b, Nop), 0, env, g, 1) == Broke(env, g);
    assert Eval(m, Lit(BoolLit(true)), env, g) == Got(BoolV(true), env, g);
  }

  lemma LateMeans(m: Arith, env: Locals, g: Globals, three: Double)
    requires "g" in g && Find(env, "g") < 0
    ensures CleanS(LateBlock(three)) && Exec(m, LateBlock(three), 0, env, g, 1) == Normal(env, g["g" := NumV(three)])
  {
    LateAccepted(three);
    var l, a := LetS("c", Lit(NumberLit(three))), ExprS(Assign("g", Var("c")));
    var env1, g1 := env + [Binding("c", NumV(three))], g["g" := NumV(three)];
    assert Exec(m, l, 1, env, g, 1) == Normal(env1, g);
    assert Find(env1, "c") == |env|;
    assert env1[..|env|] == env && Find(env1, "g") == -1;
    assert Eval(m, Var("c"), env1, g) == Got(NumV(three), env1, g);
    assert CleanS(a) && Exec(m, a, 1, env1, g, 1) == Normal(env1, g1);
    assert CleanS(Seq(a, Nop)) && Exec(m, Seq(a, Nop), 1, env1, g, 1) == Normal(env1, g1);
    assert CleanS(Seq(l, Seq(a, Nop))) && Exec(m, Seq(l, Seq(a, Nop)), 1, env, g, 1) == Normal(env1, g1);
  }

  /** The first instruction of a stretch, and the stretch behind it. */
  lemma FetchOne(fetch: Fetch, pc: nat, i: Instr, rest: seq<Instr>)
    requires InstrsAt(fetch, pc, [i] + rest)
    ensures Fetches(fetch, pc, i, pc + Len(i)) && InstrsAt(fetch, pc + Len(i), rest)
  {
    hide Encode;
    assert ([i] + rest)[1..] == rest;
  }

  lemma LoopFetched(fetch: Fetch)
    requires InstrsAt(fetch, 0, LoopCode)
    ensures Fetches(fetch, 0, PushTrue, 1) && Fetches(fetch, 1, JumpIfFalse(10), 4) && Fetches(fetch, 4, Pop, 5)
    ensures Fetches(fetch, 5, Const(1), 7) && Fetches(fetch, 7, Jump(5), 10)
  {
    hide Encode, InstrsAt, Fetches;
    var tail := [Pop, Loop(14), Pop];
    assert LoopCode == [PushTrue] + ([JumpIfFalse(10)] + ([Pop] + ([Const(1)] + ([Jump(5)] + tail))));
    FetchOne(fetch, 0, PushTrue, [JumpIfFalse(10)] + ([Pop] + ([Const(1)] + ([Jump(5)] + tail))));
    FetchOne(fetch, 1, JumpIfFalse(10), [Pop] + ([Const(1)] + ([Jump(5)] + tail)));
    FetchOne(fetch, 4, Pop, [Const(1)] + ([Jump(5)] + tail));
    FetchOne(fetch, 5, Const(1), [Jump(5)] + tail);
    FetchOne(fetch, 7, Jump(5), tail);
  }

  lemma LateSize()
    ensures Size(LateCode) == 9
  {
    hide Encode, EncodeAll;
    assert LateCode[1..] == [GetLocal(1), SetGlobal(0, 3), Pop, Pop];
    assert [GetLocal(1), SetGlobal(0, 3), Pop, Pop][1..] == [SetGlobal(0, 3), Pop, Pop];
    assert [SetGlobal(0, 3), Pop, Pop][1..] == [Pop, Pop];
    assert [Pop, Pop][1..] == [Pop];
    Sizes();
  }

  lemma TwoSizes(a: seq<Instr>, b: seq<Instr>)
    ensures Size(a + b) == Size(a) + Size(b)
  {
    EncodeAllAppend(a, b);
  }

  lemma LateFetched(fetch: Fetch)
    requires InstrsAt(fetch, 15, LateCode) && InstrsAt(fetch, 24, MainEnd)
    ensures Fetches(fetch, 15, Const(2), 17) && Fetches(fetch, 17, GetLocal(1), 19)
    ensures Fetches(fetch, 19, SetGlobal(0, 3), 22) && Fetches(fetch, 22, Pop, 23) && Fetches(fetch, 23, Pop, 24)
    ensures Fetches(fetch, 24, PushNone, 25) && Fetches(fetch, 25, Return, 26)
  {
    hide Encode, InstrsAt, Fetches;
    assert LateCode == [Const(2)] + ([GetLocal(1)] + ([SetGlobal(0, 3)] + ([Pop] + [Pop])));
    FetchOne(fetch, 15, Const(2), [GetLocal(1)] + ([SetGlobal(0, 3)] + ([Pop] + [Pop])));
    FetchOne(fetch, 17, GetLocal(1), [SetGlobal(0, 3)] + ([Pop] + [Pop]));
    FetchOne(fetch, 19, SetGlobal(0, 3), [Pop] + [Pop]);
    FetchOne(fetch, 22, Pop, [Pop]);
    assert [Pop] == [Pop] + [];
    FetchOne(fetch, 23, Pop, []);
    assert MainEnd == [PushNone] + ([Return] + [End]);
    FetchOne(fetch, 24, PushNone, [Return] + [End]);
    FetchOne(fetch, 25, Return, [End]);
  }
}
