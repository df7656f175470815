/**
  The compiler is correct on whole programs: the bytes it produces halt with the globals the
  program computes, fail with its runtime error, or run for ever, exactly as the program does.
 */
module Correctness {
  import opened Wrappers
  import opened Bytecode
  import opened Syntax
  import opened Semantics
  import opened CodeGen
  import opened Machine
  import opened Simulation
  import opened Execution

  /** Outside of loops there are no holes to fill. */
  lemma {:induction false} NoHolesOutside(s: Stmt, sc: Scope, depth: nat, base: nat)
    requires Ok(s, sc, depth, false)
    ensures NoHoles(Gen(s, sc, depth, base, None))
  {
    hide NoHoles, Size, Encode, EncodeAll, Len, GenE, OkE;
    match s
    case Nop => NoHolesNone();
    case Seq(a, b) =>
      NoHolesOutside(a, sc, depth, base);
      NoHolesOutside(b, After(a, sc, depth), depth, base + |Consts(a, sc, depth)|);
      NoHolesAppend(Gen(a, sc, depth, base, None),
                    Gen(b, After(a, sc, depth), depth, base + |Consts(a, sc, depth)|, None));
    case ExprS(e) => NoHolesE(e, sc, base); NoHolesLast(GenE(e, sc, base), Pop);
    case LetS(x, e) =>
      NoHolesE(e, sc, base + 1);
      NoHolesLast(GenE(e, sc, base + 1), DefGlobal(0, base));
      NoHolesE(e, sc + [Local(x, -1)], base);
    case IfS(c, y, n) =>
      var base1 := base + |ConstsE(c, sc)|;
      var base2, sc1 := base1 + |Consts(y, sc, depth)|, After(y, sc, depth);
      NoHolesE(c, sc, base);
      NoHolesOutside(y, sc, depth, base1);
      NoHolesOutside(n, sc1, depth, base2);
      NoHolesBranches(GenE(c, sc, base), Gen(y, sc, depth, base1, None), Gen(n, sc1, depth, base2, None));
    case WhileS(c, b) =>
      NoHolesE(c, sc, base);
      LoopedHasNoHoles(GenE(c, sc, base),
                       Gen(b, sc, depth, base + |ConstsE(c, sc)|, Some(Size(GenE(c, sc, base)) + 4)));
    case BlockS(b) =>
      NoHolesOutside(b, sc, depth + 1, base);
      PopsHaveNoHoles(Declared(b, depth + 1));
      NoHolesAppend(Gen(b, sc, depth + 1, base, None), Pops(Declared(b, depth + 1)));
  }

  lemma NoHolesNone()
    ensures NoHoles([])
  {
  }

  lemma NoHolesBranches(cond: seq<Instr>, yes: seq<Instr>, no: seq<Instr>)
    requires NoHoles(cond) && NoHoles(yes) && NoHoles(no)
    ensures NoHoles(cond + Branches(yes, no))
  {
    hide NoHoles, Size, Encode, EncodeAll, Len;
    var tests, skips := [JumpIfFalse(Size(yes) + 4), Pop], [Jump(1 + Size(no)), Pop];
    NoHolesTwo(tests[0], Pop);
    NoHolesTwo(skips[0], Pop);
    NoHolesAppend(skips, no);
    NoHolesAppend(yes, skips + no);
    NoHolesAppend(tests, yes + (skips + no));
    NoHolesAppend(cond, tests + (yes + (skips + no)));
  }

  /** A program the compiler accepts and whose use of the stack can be predicted. */
  predicate Compilable(s: Stmt) {
    CleanS(s) && Ok(s, MainScope, 0, false) && Framed(s, 0, 1, None) && AllFit(GenProgram(s))
  }

  /** The compiled program, as the machine sees it. */
  function Compiled(s: Stmt, m: Arith): Program {
    Program(FetchFrom(EncodeAll(GenProgram(s))), ConstsProgram(s), m)
  }

  /** Slot 0 holds the function being run. */
  function Initial(self: Value, g: Globals): Config {
    Running(0, [self], g)
  }

  function Meaning(s: Stmt, m: Arith, self: Value, g: Globals, fuel: nat): Outcome
    requires CleanS(s)
  {
    Exec(m, s, 0, [Binding("", self)], g, fuel)
  }

  const MainSite: Site := Site(MainScope, 0, 1, None, None, 0)

  lemma MainReady(s: Stmt, m: Arith, self: Value)
    requires Compilable(s)
    ensures Ready(Compiled(s, m), 0, s, MainSite, [Binding("", self)])
    ensures var p, end := Compiled(s, m), Size(Code(s, MainSite));
            p.fetch(end) == Some(Decoded(PushNone, end + 1)) && p.fetch(end + 1) == Some(Decoded(Return, end + 2))
  {
    hide InstrsAt, Gen, NoHoles, Size, Encode, EncodeAll, Len, Ok, Framed, CleanS, Fits, PoolAt, AllFit, Consts, Patch;
    var p, code, tail := Compiled(s, m), Code(s, MainSite), [PushNone, Return, End];
    var k := Consts(s, MainScope, 0);
    NoHolesOutside(s, MainScope, 0, 1);
    PatchNothing(code, 0);
    WholeCodeReadable(s, m);
    InstrsAtAppend(p.fetch, 0, code, tail);
    PoolBehindModule(k);
    TailPlaced(p, Size(code));
  }

  lemma PoolBehindModule(k: seq<Value>)
    ensures PoolAt([NoneV] + k, 1, k)
  {
  }

  lemma WholeCodeReadable(s: Stmt, m: Arith)
    requires Ok(s, MainScope, 0, false) && AllFit(GenProgram(s))
    ensures InstrsAt(Compiled(s, m).fetch, 0, GenProgram(s))
  {
    hide InstrsAt, Ok, AllFit, EncodeAll, GenProgram;
    ProgramReadable(s);
  }

  lemma ProgramReadable(s: Stmt)
    requires Ok(s, MainScope, 0, false) && AllFit(GenProgram(s))
    ensures InstrsAt(FetchFrom(EncodeAll(GenProgram(s))), 0, GenProgram(s))
  {
    hide InstrsAt, Gen, NoHoles, Size, Encode, EncodeAll, Len, Framed, CleanS, AllFit, Consts;
    var code := Gen(s, MainScope, 0, 1, None);
    NoHolesOutside(s, MainScope, 0, 1);
    NoHolesTwo(PushNone, Return);
    NoHolesLast([PushNone, Return], End);
    assert [PushNone, Return] + [End] == [PushNone, Return, End];
    NoHolesAppend(code, [PushNone, Return, End]);
    assert EncodeAll(GenProgram(s)) == [] + EncodeAll(GenProgram(s)) + [];
    EncodedIsReadable([], GenProgram(s), [], FetchFrom(EncodeAll(GenProgram(s))));
  }

  lemma TailPlaced(p: Program, pc: nat)
    requires InstrsAt(p.fetch, pc, [PushNone, Return, End])
    ensures p.fetch(pc) == Some(Decoded(PushNone, pc + 1)) && p.fetch(pc + 1) == Some(Decoded(Return, pc + 2))
  {
    assert [PushNone, Return, End][1..] == [Return, End];
    assert InstrsAt(p.fetch, pc + 1, [Return, End]);
  }

  /** What running the compiled program amounts to, for each way the program can end. */
  ghost predicate RunsAs(p: Program, c: Config, o: Outcome, fuel: nat) {
    match o
    case Normal(_, g) => Goes(p, c, Halted(g))
    case Failed(err, g) => Goes(p, c, Crashed(err, g))
    case Timeout => Busy(p, c, fuel)
    case _ => false
  }

  /** Compiled programs do what they mean, for every number of loop rounds. */
  lemma CompilerCorrect(s: Stmt, m: Arith, self: Value, g: Globals, fuel: nat)
    requires Compilable(s)
    ensures RunsAs(Compiled(s, m), Initial(self, g), Meaning(s, m, self, g, fuel), fuel)
  {
    hide Gen, Consts, Ok, Framed, CleanS, AllFit, Ready, Goes, Busy, Exec, Fits, Size, GenProgram, EncodeAll, Step, After, Declared;
    var p, env, c := Compiled(s, m), [Binding("", self)], Initial(self, g);
    assert Values(env) + [] == [self];
    MainReady(s, m, self);
    SimulateStmt(p, 0, s, MainSite, env, g, fuel);
    var o := Meaning(s, m, self, g, fuel);
    AfterExtends(s, MainScope, 0);
    if o.Normal? {
      FinalReturn(p, c, Size(Code(s, MainSite)), o.env, o.globals);
    }
  }

  lemma FinalReturn(p: Program, c: Config, pc: nat, env: Locals, g: Globals)
    requires Goes(p, c, Start(pc, env, g, [])) && env != []
    requires p.fetch(pc) == Some(Decoded(PushNone, pc + 1)) && p.fetch(pc + 1) == Some(Decoded(Return, pc + 2))
    ensures Goes(p, c, Halted(g))
  {
    hide Goes;
    GoesOneMore(p, c, Start(pc, env, g, []));
    Above(env, [], NoneV);
    GoesOneMore(p, c, Running(pc + 1, Values(env) + [] + [NoneV], g));
  }

  /** The machine comes to rest in one configuration at most. */
  lemma Deterministic(p: Program, c: Config, d: Config, e: Config)
    requires Goes(p, c, d) && Goes(p, c, e) && !d.Running? && !e.Running?
    ensures d == e
  {
    var m: nat :| Run(p, c, m) == d;
    var n: nat :| Run(p, c, n) == e;
    RunAdd(p, c, m, n);
    RunAdd(p, c, n, m);
    RunAtRest(p, d, n);
    RunAtRest(p, e, m);
  }

  /** A run that came to rest after `n` instructions shows what `n` loop rounds compute. */
  lemma RestReveals(s: Stmt, m: Arith, self: Value, g: Globals, d: Config, n: nat)
    requires Compilable(s) && !d.Running? && Run(Compiled(s, m), Initial(self, g), n) == d
    ensures match Meaning(s, m, self, g, n)
            case Normal(_, g1) => d == Halted(g1)
            case Failed(err, g1) => d == Crashed(err, g1)
            case _ => false
  {
    hide Ok, Framed, CleanS, AllFit, Exec;
    var p, c, o := Compiled(s, m), Initial(self, g), Meaning(s, m, self, g, n);
    CompilerCorrect(s, m, self, g, n);
    assert Goes(p, c, d);
    match o
    case Normal(_, g1) => Deterministic(p, c, d, Halted(g1));
    case Failed(err, g1) => Deterministic(p, c, d, Crashed(err, g1));
    case _ =>
  }

  /** The configuration a finished program leaves the machine in. */
  function Resting(o: Outcome): Config {
    match o
    case Normal(_, g) => Halted(g)
    case Failed(err, g) => Crashed(err, g)
    case _ => Stuck
  }

  /**
    The main theorem: the machine comes to rest in a configuration exactly if the program
    finishes with the globals or the runtime error it shows. In particular it is never
    stuck, and runs for ever exactly if the program does.
   */
  lemma CompilerExact(s: Stmt, m: Arith, self: Value, g: Globals, d: Config)
    requires Compilable(s) && !d.Running?
    ensures Goes(Compiled(s, m), Initial(self, g), d) <==>
            exists fuel: nat :: Resting(Meaning(s, m, self, g, fuel)) == d && d != Stuck
  {
    hide Ok, Framed, CleanS, AllFit, Exec;
    var p, c := Compiled(s, m), Initial(self, g);
    if Goes(p, c, d) {
      var n: nat :| Run(p, c, n) == d;
      RestReveals(s, m, self, g, d, n);
      assert Resting(Meaning(s, m, self, g, n)) == d && d != Stuck;
    }
    if fuel: nat :| Resting(Meaning(s, m, self, g, fuel)) == d && d != Stuck {
      CompilerCorrect(s, m, self, g, fuel);
    }
  }
}
