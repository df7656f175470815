/**
  Statements: wherever the code of a statement is placed, with the breaks of the enclosing
  loop resolved, the machine ends it as the interpreter does: behind it, behind the loop, at
  the start of the loop, with the same runtime error, or not within the given number of steps.
 */
module Execution {
  import opened Wrappers
  import opened Bytecode
  import opened Syntax
  import opened Semantics
  import opened CodeGen
  import opened Machine
  import opened Simulation

  /** The machine is still running after `n` instructions. */
  predicate Busy(p: Program, c: Config, n: nat) {
    Run(p, c, n).Running?
  }

  lemma BusyLater(p: Program, c: Config, d: Config, n: nat)
    requires Goes(p, c, d) && Busy(p, d, n)
    ensures Busy(p, c, n)
  {
    var k: nat :| Run(p, c, k) == d;
    RunAdd(p, c, k, n);
    RunAdd(p, c, n, k);
    if !Run(p, c, n).Running? {
      RunAtRest(p, Run(p, c, n), k);
    }
  }

  lemma BusyStep(p: Program, c: Config, n: nat)
    requires Busy(p, Step(p, c), n)
    ensures Busy(p, c, n + 1)
  {
  }

  /** Where the machine ends up for each way a statement can end. */
  ghost predicate Ends(p: Program, c: Config, o: Outcome, next: int, brk: int, loop: int, fuel: nat) {
    match o
    case Normal(env, g) => next >= 0 && Goes(p, c, Start(next, env, g, []))
    case Broke(env, g) => brk >= 0 && Goes(p, c, Start(brk, env, g, []))
    case Skipped(env, g) => loop >= 0 && Goes(p, c, Start(loop, env, g, []))
    case Failed(err, g) => Goes(p, c, Crashed(err, g))
    case Timeout => Busy(p, c, fuel)
  }

  lemma EndsLater(p: Program, c: Config, d: Config, o: Outcome, next: int, brk: int, loop: int, fuel: nat)
    requires Goes(p, c, d) && Ends(p, d, o, next, brk, loop, fuel)
    ensures Ends(p, c, o, next, brk, loop, fuel)
  {
    hide Goes, Busy;
    match o
    case Normal(env, g) => GoesOn(p, c, d, Start(next, env, g, []));
    case Broke(env, g) => GoesOn(p, c, d, Start(brk, env, g, []));
    case Skipped(env, g) => GoesOn(p, c, d, Start(loop, env, g, []));
    case Failed(err, g) => GoesOn(p, c, d, Crashed(err, g));
    case Timeout => BusyLater(p, c, d, fuel);
  }

  /** The locals a statement leaves are the ones the compiler knows of. */
  predicate Tracks(o: Outcome, after: Scope, sc: Scope, loopN: Option<nat>) {
    match o
    case Normal(env, _) => |env| == |after| && Agree(after, env)
    case Broke(env, _) => AtLoop(env, sc, loopN)
    case Skipped(env, _) => AtLoop(env, sc, loopN)
    case _ => true
  }

  /** The locals of the loop itself. */
  predicate AtLoop(env: Locals, sc: Scope, loopN: Option<nat>) {
    loopN.Some? && loopN.value <= |sc| && |env| == loopN.value && Agree(sc[..loopN.value], env)
  }

  lemma NoHolesAppend(a: seq<Instr>, b: seq<Instr>)
    requires NoHoles(a) && NoHoles(b)
    ensures NoHoles(a + b)
  {
  }

  lemma {:induction false} NoHolesE(e: Expr, sc: Scope, base: nat)
    ensures NoHoles(GenE(e, sc, base))
    decreases e
  {
    hide NoHoles, Size, Encode, EncodeAll, Len, GetVar, SetVar, GenLiteral;
    if e.Bin? || e.And? || e.Or? || e.Lost? {
      NoHolesE(e.left, sc, base);
      NoHolesE(e.right, sc, base + |ConstsE(e.left, sc)|);
      NoHolesPair(e, sc, base);
    } else if e.Assign? || e.Update? {
      NoHolesE(e.value, sc, base + |NameConst(e.target, sc)|);
      NoHolesAssign(e, sc, base);
    } else if e.NotE? || e.NegE? {
      NoHolesE(e.operand, sc, base);
      NoHolesLast(GenE(e.operand, sc, base), if e.NotE? then Not else Neg);
    } else {
      NoHolesLeaf(e, sc, base);
    }
  }

  lemma NoHolesLeaf(e: Expr, sc: Scope, base: nat)
    requires e.Lit? || e.Var?
    ensures NoHoles(GenE(e, sc, base))
  {
  }

  lemma NoHolesAssign(e: Expr, sc: Scope, base: nat)
    requires e.Assign? || e.Update?
    requires NoHoles(GenE(e.value, sc, base + |NameConst(e.target, sc)|))
    ensures NoHoles(GenE(e, sc, base))
  {
    hide NoHoles, Size, Encode, EncodeAll, Len;
    var code, put := GenE(e.value, sc, base + |NameConst(e.target, sc)|), SetVar(e.target, sc, base);
    if e.Assign? {
      NoHolesLast(code, put);
    } else {
      NoHolesUpdate(GetVar(e.target, sc, base), code, e.op, put);
    }
  }

  lemma NoHolesLast(a: seq<Instr>, i: Instr)
    requires NoHoles(a) && i != BreakHole
    ensures NoHoles(a + [i])
  {
  }

  lemma NoHolesUpdate(get: Instr, code: seq<Instr>, op: BinOp, put: Instr)
    requires get != BreakHole && put != BreakHole && NoHoles(code)
    ensures NoHoles([get] + code + [Binary(op)] + [put])
  {
    NoHolesAppend([get], code);
    NoHolesLast([get] + code, Binary(op));
    NoHolesLast([get] + code + [Binary(op)], put);
  }

  lemma NoHolesPair(e: Expr, sc: Scope, base: nat)
    requires e.Bin? || e.And? || e.Or? || e.Lost?
    requires NoHoles(GenE(e.left, sc, base))
    requires NoHoles(GenE(e.right, sc, base + |ConstsE(e.left, sc)|))
    ensures NoHoles(GenE(e, sc, base))
  {
    hide NoHoles, Size, Encode, EncodeAll, Len;
    var left, right := GenE(e.left, sc, base), GenE(e.right, sc, base + |ConstsE(e.left, sc)|);
    var over := 1 + Size(right);
    if e.And? {
      NoHolesMiddle(left, [JumpIfFalse(over), Pop], right, ToBool);
    } else if e.Or? {
      NoHolesMiddle(left, [JumpIfFalse(3), Jump(over), Pop], right, ToBool);
    } else {
      NoHolesAppend(left, right);
      NoHolesLast(left + right, Binary(if e.Bin? then e.op else Add));
    }
  }

  lemma NoHolesMiddle(left: seq<Instr>, jumps: seq<Instr>, right: seq<Instr>, i: Instr)
    requires NoHoles(left) && NoHoles(right) && i != BreakHole
    requires |jumps| == 2 || |jumps| == 3
    requires jumps[0] != BreakHole && jumps[1] != BreakHole && (|jumps| == 3 ==> jumps[2] != BreakHole)
    ensures NoHoles(left + jumps + right + [i])
  {
    NoHolesAppend(left, jumps);
    NoHolesAppend(left + jumps, right);
    NoHolesLast(left + jumps + right, i);
  }

  lemma NoHolesOne(i: Instr)
    requires i != BreakHole
    ensures NoHoles([i])
  {
  }

  lemma NoHolesTwo(i: Instr, j: Instr)
    requires i != BreakHole && j != BreakHole
    ensures NoHoles([i, j])
  {
  }

  /** A compiled loop has no holes left. */
  lemma LoopedHasNoHoles(cond: seq<Instr>, body: seq<Instr>)
    requires NoHoles(cond)
    ensures NoHoles(Looped(cond, body))
  {
    hide NoHoles, Patch, Size, Encode, EncodeAll, Len;
    var inner := Patch(body, Size(body) + 4);
    PatchSize(body, Size(body) + 4);
    NoHolesTwo(JumpIfFalse(Size(body) + 4), Pop);
    NoHolesTwo(Loop(Size(cond) + Size(body) + 7), Pop);
    NoHolesAppend(inner, [Loop(Size(cond) + Size(body) + 7), Pop]);
    NoHolesAppend([JumpIfFalse(Size(body) + 4), Pop], inner + [Loop(Size(cond) + Size(body) + 7), Pop]);
    NoHolesAppend(cond, [JumpIfFalse(Size(body) + 4), Pop] + (inner + [Loop(Size(cond) + Size(body) + 7), Pop]));
  }

  lemma {:induction false} PopsHaveNoHoles(n: nat)
    ensures NoHoles(Pops(n)) && Size(Pops(n)) == n
  {
    if n > 0 {
      PopsHaveNoHoles(n - 1);
      assert Pops(n)[1..] == Pops(n - 1);
    }
  }

  /** Resolving the holes of an `if` resolves those of its branches. */
  lemma PatchBranches(cond: seq<Instr>, yes: seq<Instr>, no: seq<Instr>, d: int)
    requires NoHoles(cond)
    ensures var d1 := d - Size(cond) - 4;
            var d2 := d1 - Size(yes) - 4;
            Patch(cond + Branches(yes, no), d) == cond + Branches(Patch(yes, d1), Patch(no, d2))
  {
    hide Patch, NoHoles, Size, Encode, EncodeAll;
    var d1 := d - Size(cond) - 4;
    var d2 := d1 - Size(yes) - 4;
    var tests, skips := [JumpIfFalse(Size(yes) + 4), Pop], [Jump(1 + Size(no)), Pop];
    PatchAppend(cond, Branches(yes, no), d);
    PatchNothing(cond, d);
    PatchAppend(tests, yes + (skips + no), d - Size(cond));
    PatchTwo(tests, d - Size(cond));
    PatchAppend(yes, skips + no, d1);
    PatchAppend(skips, no, d1 - Size(yes));
    PatchTwo(skips, d1 - Size(yes));
    PatchSize(yes, d1);
    PatchSize(no, d2);
  }

  lemma PatchTwo(ins: seq<Instr>, d: int)
    requires |ins| == 2 && ins[0] != BreakHole && ins[1] != BreakHole
    ensures Patch(ins, d) == ins && Size(ins) == Len(ins[0]) + Len(ins[1])
  {
    PatchNothing(ins, d);
    assert ins[1..] == [ins[1]];
  }

  /** Where a statement stands in the program being compiled. */
  datatype Site = Site(sc: Scope, depth: nat, base: nat, back: Option<nat>, loopN: Option<nat>, brk: int)

  function Code(s: Stmt, t: Site): seq<Instr> {
    Gen(s, t.sc, t.depth, t.base, t.back)
  }

  /** The machine and the interpreter stand at the same statement. */
  predicate Ready(p: Program, pc: nat, s: Stmt, t: Site, env: Locals) {
    && CleanS(s) && Ok(s, t.sc, t.depth, t.back.Some?) && Framed(s, t.depth, |t.sc|, t.loopN)
    && Agree(t.sc, env) && |env| == |t.sc|
    && t.back.Some? == t.loopN.Some?
    && (t.back.Some? ==> t.loopN.value <= |t.sc| && t.back.value <= pc && t.brk >= 0)
    && Placed(p, pc, Patch(Code(s, t), t.brk - pc), t.base, Consts(s, t.sc, t.depth))
  }

  function LoopStart(pc: nat, t: Site): int {
    if t.back.Some? then pc - t.back.value else -1
  }

  /** They end it in the same way. */
  ghost predicate Follows(p: Program, pc: nat, s: Stmt, t: Site, env: Locals, g: Globals, fuel: nat)
    requires CleanS(s)
  {
    var o := Exec(p.arith, s, t.depth, env, g, fuel);
    && Ends(p, Start(pc, env, g, []), o, pc + Size(Code(s, t)), t.brk, LoopStart(pc, t), fuel)
    && Tracks(o, After(s, t.sc, t.depth), t.sc, t.loopN)
  }

  /**
    The code of every statement follows the interpreter: same variables, same stack of
    locals, same runtime error, and no end where the interpreter finds none.
   */
  lemma {:induction false} SimulateStmt(p: Program, pc: nat, s: Stmt, t: Site, env: Locals, g: Globals, fuel: nat)
    requires Ready(p, pc, s, t, env)
    ensures Follows(p, pc, s, t, env, g, fuel)
    decreases fuel, s, 1
  {
    hide Ready, Follows, Code, Exec, Gen;
    match s
    case Nop => SimNop(p, pc, t, env, g, fuel);

    case ExprS(e) => SimExprStmt(p, pc, e, t, env, g, fuel);
    case BreakS => SimBreak(p, pc, t, env, g, fuel);
    case SkipS => SimSkip(p, pc, t, env, g, fuel);
    case Seq(a, b) => SimSeq(p, pc, s, t, env, g, fuel);
    case LetS(x, e) => SimLet(p, pc, x, e, t, env, g, fuel);
    case IfS(c, y, n) => SimIf(p, pc, s, t, env, g, fuel);
    case WhileS(c, b) => SimWhile(p, pc, s, t, env, g, fuel);
    case BlockS(b) => SimBlock(p, pc, s, t, env, g, fuel);
  }

  lemma SimNop(p: Program, pc: nat, t: Site, env: Locals, g: Globals, fuel: nat)
    requires Ready(p, pc, Nop, t, env)
    ensures Follows(p, pc, Nop, t, env, g, fuel)
  {
    GoesNowhere(p, Start(pc, env, g, []));
  }

  lemma SimBreak(p: Program, pc: nat, t: Site, env: Locals, g: Globals, fuel: nat)
    requires Ready(p, pc, BreakS, t, env)
    ensures Follows(p, pc, BreakS, t, env, g, fuel)
  {
    var jump := Jump(t.brk - pc - 3);
    assert Patch([BreakHole], t.brk - pc) == [jump];
    assert t.sc[..|t.sc|] == t.sc;
    PlacedFirst(p, pc, jump, t.base, []);
    GoesStep(p, Start(pc, env, g, []));
  }

  lemma SimSkip(p: Program, pc: nat, t: Site, env: Locals, g: Globals, fuel: nat)
    requires Ready(p, pc, SkipS, t, env)
    ensures Follows(p, pc, SkipS, t, env, g, fuel)
  {
    var loop := Loop(t.back.value + 3);
    assert Patch([loop], t.brk - pc) == [loop];
    assert t.sc[..|t.sc|] == t.sc;
    PlacedFirst(p, pc, loop, t.base, []);
    GoesStep(p, Start(pc, env, g, []));
  }

  lemma PlacedPatched(p: Program, pc: nat, ins: seq<Instr>, d: int, base: nat, k: seq<Value>)
    requires Placed(p, pc, Patch(ins, d), base, k) && NoHoles(ins)
    ensures Placed(p, pc, ins, base, k)
  {
    PatchNothing(ins, d);
  }

  lemma SimExprStmt(p: Program, pc: nat, e: Expr, t: Site, env: Locals, g: Globals, fuel: nat)
    requires Ready(p, pc, ExprS(e), t, env)
    ensures Follows(p, pc, ExprS(e), t, env, g, fuel)
  {
    hide Placed, Patch, Goes, Values, InstrsAt, PoolAt, GenE, Eval, NoHoles, Agree, Size, EncodeAll, Encode;
    var code := GenE(e, t.sc, t.base);
    NoHolesE(e, t.sc, t.base);
    NoHolesLast(code, Pop);
    PlacedPatched(p, pc, code + [Pop], t.brk - pc, t.base, ConstsE(e, t.sc));
    PlacedLast(p, pc, code, Pop, t.base, ConstsE(e, t.sc));
    SimulateExpr(p, pc, e, t.sc, t.base, env, g, []);
    var r := Eval(p.arith, e, env, g);
    if r.Got? {
      PopRule(p, Start(pc, env, g, []), pc + Size(code), r);
    }
  }

  lemma PopRule(p: Program, c: Config, pc: nat, r: Evaluated)
    requires r.Got? && Goes(p, c, Arrived(r, pc, [])) && p.fetch(pc) == Some(Decoded(Pop, pc + 1))
    ensures Goes(p, c, Start(pc + 1, r.env, r.globals, []))
  {
    hide Goes, Values;
    Above(r.env, [], r.value);
    GoesOneMore(p, c, Arrived(r, pc, []));
  }

  lemma SimLet(p: Program, pc: nat, x: string, e: Expr, t: Site, env: Locals, g: Globals, fuel: nat)
    requires Ready(p, pc, LetS(x, e), t, env)
    ensures Follows(p, pc, LetS(x, e), t, env, g, fuel)
  {
    hide Ready, Follows;
    if t.depth == 0 {
      SimLetGlobal(p, pc, x, e, t, env, g, fuel);
    } else {
      SimLetLocal(p, pc, x, e, t, env, g, fuel);
    }
  }

  /** A global is defined under its name, whether it existed or not. */
  lemma SimLetGlobal(p: Program, pc: nat, x: string, e: Expr, t: Site, env: Locals, g: Globals, fuel: nat)
    requires t.depth == 0 && Ready(p, pc, LetS(x, e), t, env)
    ensures Follows(p, pc, LetS(x, e), t, env, g, fuel)
  {
    hide Patch, Goes, Values, InstrsAt, PoolAt, GenE, Eval, NoHoles, Agree, Size, EncodeAll, Encode;
    var code, k := GenE(e, t.sc, t.base + 1), ConstsE(e, t.sc);
    var def := DefGlobal(0, t.base);
    NoHolesE(e, t.sc, t.base + 1);
    NoHolesLast(code, def);
    PlacedPatched(p, pc, code + [def], t.brk - pc, t.base, [StrV(x)] + k);
    PlacedLast(p, pc, code, def, t.base, [StrV(x)] + k);
    assert code == [] + code;
    PlacedApart(p, pc, [], code, t.base, [StrV(x)], k);
    PoolHead(p.pool, t.base, StrV(x));
    SimulateExpr(p, pc, e, t.sc, t.base + 1, env, g, []);
    var r := Eval(p.arith, e, env, g);
    if r.Got? {
      DefRule(p, Start(pc, env, g, []), pc + Size(code), def, x, r);
    }
  }

  lemma DefRule(p: Program, c: Config, pc: nat, def: Instr, x: string, r: Evaluated)
    requires r.Got? && Goes(p, c, Arrived(r, pc, [])) && p.fetch(pc) == Some(Decoded(def, pc + Len(def)))
    requires def.DefGlobal? && NamesGlobal(p, def.owner, def.index) && p.pool[def.index] == StrV(x)
    ensures Goes(p, c, Start(pc + Len(def), r.env, r.globals[x := r.value], []))
  {
    hide Goes, Values;
    Above(r.env, [], r.value);
    GoesOneMore(p, c, Arrived(r, pc, []));
  }

  /** The value of the initializer stays on the stack and becomes the local. */
  lemma SimLetLocal(p: Program, pc: nat, x: string, e: Expr, t: Site, env: Locals, g: Globals, fuel: nat)
    requires t.depth > 0 && Ready(p, pc, LetS(x, e), t, env)
    ensures Follows(p, pc, LetS(x, e), t, env, g, fuel)
  {
    hide Placed, Patch, Goes, Values, InstrsAt, PoolAt, GenE, Eval, NoHoles, Size, EncodeAll, Encode;
    var sc1 := t.sc + [Local(x, -1)];
    var code := GenE(e, sc1, t.base);
    NoHolesE(e, sc1, t.base);
    PlacedPatched(p, pc, code, t.brk - pc, t.base, ConstsE(e, sc1));
    SimulateExpr(p, pc, e, sc1, t.base, env, g, []);
    var r := Eval(p.arith, e, env, g);
    if r.Got? {
      NewLocal(r.env, x, r.value);
      AgreeLonger(t.sc, env, r.env, x, t.depth, r.value);
    }
  }

  lemma NewLocal(env: Locals, x: string, v: Value)
    ensures Values(env) + [] + [v] == Values(env + [Binding(x, v)]) + []
  {
  }

  lemma AgreeLonger(sc: Scope, env0: Locals, env: Locals, x: string, depth: nat, v: Value)
    requires |env| == |sc| && Agree(sc + [Local(x, -1)], env)
    ensures Agree(sc + [Local(x, depth)], env + [Binding(x, v)])
  {
    forall i | 0 <= i < |sc|
      ensures sc[i].name == env[i].name && sc[i].depth >= 0
    {
      assert (sc + [Local(x, -1)])[i] == sc[i];
    }
  }

  /** What ends normally is what control can come out of. */
  lemma {:induction false} NormalFalls(m: Arith, s: Stmt, depth: nat, env: Locals, g: Globals, fuel: nat)
    requires CleanS(s) && Exec(m, s, depth, env, g, fuel).Normal?
    ensures Falls(s)
    decreases s
  {
    hide Eval;
    match s
    case Seq(a, b) =>
      NormalFalls(m, a, depth, env, g, fuel);
      var o := Exec(m, a, depth, env, g, fuel);
      NormalFalls(m, b, depth, o.env, o.globals, fuel);
    case IfS(c, y, n) =>
      var u := Eval(m, c, env, g);
      NormalFalls(m, if Falsey(u.value) then n else y, depth, u.env, u.globals, fuel);
    case BlockS(b) => NormalFalls(m, b, depth + 1, env, g, fuel);
    case _ =>
  }

  lemma {:induction false} SimSeq(p: Program, pc: nat, s: Stmt, t: Site, env: Locals, g: Globals, fuel: nat)
    requires s.Seq? && Ready(p, pc, s, t, env)
    ensures Follows(p, pc, s, t, env, g, fuel)
    decreases fuel, s, 0
  {
    hide Goes, Values, InstrsAt, PoolAt, Gen, NoHoles, Agree, Size, EncodeAll, Encode, Busy, AtLoop;
    var a, b := s.first, s.rest;
    var first := Code(a, t);
    var t1 := NextSite(a, t, Size(first));
    SeqReady(p, pc, s, t, env);
    SimulateStmt(p, pc, a, t, env, g, fuel);
    var o := Exec(p.arith, a, t.depth, env, g, fuel);
    if o.Normal? {
      var pc1 := pc + Size(first);
      NormalFalls(p.arith, a, t.depth, env, g, fuel) by { ReadyAgrees(p, pc, s, t, env); }
      SeqReadyRest(p, pc, s, t, env, o.env);
      SimulateStmt(p, pc1, b, t1, o.env, o.globals, fuel);
      var o1 := Exec(p.arith, b, t.depth, o.env, o.globals, fuel);
      EndsLater(p, Start(pc, env, g, []), Start(pc1, o.env, o.globals, []), o1,
                pc + Size(Code(s, t)), t.brk, LoopStart(pc, t), fuel);
      TracksEarlier(o1, After(s, t.sc, t.depth), t.sc, t1.sc, t.loopN, a, t.depth);
    }
  }

  /** The site of what follows a statement. */
  function NextSite(a: Stmt, t: Site, size: nat): Site {
    Site(After(a, t.sc, t.depth), t.depth, t.base + |Consts(a, t.sc, t.depth)|, Further(t.back, size), t.loopN, t.brk)
  }

  lemma SeqReady(p: Program, pc: nat, s: Stmt, t: Site, env: Locals)
    requires s.Seq? && Ready(p, pc, s, t, env)
    ensures Ready(p, pc, s.first, t, env)
    ensures var first := Code(s.first, t);
            var t1 := NextSite(s.first, t, Size(first));
            && Placed(p, pc + Size(first), Patch(Code(s.rest, t1), t.brk - (pc + Size(first))), t1.base,
                      Consts(s.rest, t1.sc, t.depth))
            && Size(Code(s, t)) == Size(first) + Size(Code(s.rest, t1))
  {
    hide Placed, InstrsAt, PoolAt, NoHoles, Agree, Size, EncodeAll, Encode, Patch;
    var first := Code(s.first, t);
    var t1 := NextSite(s.first, t, Size(first));
    var rest := Code(s.rest, t1);
    PatchAppend(first, rest, t.brk - pc);
    PatchSize(first, t.brk - pc);
    EncodeAllAppend(first, rest);
    PlacedApart(p, pc, Patch(first, t.brk - pc), Patch(rest, t.brk - pc - Size(first)), t.base,
                Consts(s.first, t.sc, t.depth), Consts(s.rest, t1.sc, t.depth));
  }

  lemma SeqReadyRest(p: Program, pc: nat, s: Stmt, t: Site, env: Locals, env1: Locals)
    requires s.Seq? && Ready(p, pc, s, t, env) && Falls(s.first)
    requires Agree(After(s.first, t.sc, t.depth), env1) && |env1| == |After(s.first, t.sc, t.depth)|
    ensures Ready(p, pc + Size(Code(s.first, t)), s.rest, NextSite(s.first, t, Size(Code(s.first, t))), env1)
  {
    hide Placed, InstrsAt, PoolAt, NoHoles, Agree, Size, EncodeAll, Encode, Patch;
    SeqReady(p, pc, s, t, env);
    AfterExtends(s.first, t.sc, t.depth);
  }

  lemma TracksEarlier(o: Outcome, after: Scope, sc: Scope, sc1: Scope, loopN: Option<nat>, a: Stmt, depth: nat)
    requires sc1 == After(a, sc, depth) && (loopN.Some? ==> loopN.value <= |sc|)
    requires Tracks(o, after, sc1, loopN)
    ensures Tracks(o, after, sc, loopN)
  {
    AfterExtends(a, sc, depth);
    if loopN.Some? {
      assert sc1[..loopN.value] == sc[..loopN.value];
    }
  }

  /** The condition of an `if` or `while` is false: its jump is taken and the value dropped. */
  lemma NotTaken(p: Program, c: Config, pc: nat, u: Evaluated, over: nat)
    requires u.Got? && Falsey(u.value) && Goes(p, c, Arrived(u, pc, []))
    requires p.fetch(pc) == Some(Decoded(JumpIfFalse(over), pc + 3))
    requires p.fetch(pc + 3 + over) == Some(Decoded(Pop, pc + 4 + over))
    ensures Goes(p, c, Start(pc + 4 + over, u.env, u.globals, []))
  {
    hide Goes, Values;
    Above(u.env, [], u.value);
    GoesOneMore(p, c, Arrived(u, pc, []));
    GoesOneMore(p, c, Arrived(u, pc + 3 + over, []));
  }

  /** Everything there is to know about the code of a conditional. */
  predicate IfPlaced(p: Program, pc: nat, cond: seq<Instr>, yes: seq<Instr>, no: seq<Instr>,
                     base: nat, kc: seq<Value>, ky: seq<Value>, kn: seq<Value>)
  {
    var pc1 := pc + Size(cond);
    var pc2 := pc1 + 4 + Size(yes);
    && Placed(p, pc, cond, base, kc)
    && p.fetch(pc1) == Some(Decoded(JumpIfFalse(Size(yes) + 4), pc1 + 3))
    && p.fetch(pc1 + 3) == Some(Decoded(Pop, pc1 + 4))
    && Placed(p, pc1 + 4, yes, base + |kc|, ky)
    && p.fetch(pc2) == Some(Decoded(Jump(1 + Size(no)), pc2 + 3))
    && p.fetch(pc2 + 3) == Some(Decoded(Pop, pc2 + 4))
    && Placed(p, pc2 + 4, no, base + |kc| + |ky|, kn)
    && Size(cond + Branches(yes, no)) == Size(cond) + Size(yes) + Size(no) + 8
  }

  lemma IfApart(p: Program, pc: nat, cond: seq<Instr>, yes: seq<Instr>, no: seq<Instr>,
                base: nat, kc: seq<Value>, ky: seq<Value>, kn: seq<Value>)
    requires Placed(p, pc, cond + Branches(yes, no), base, kc + ky + kn)
    ensures IfPlaced(p, pc, cond, yes, no, base, kc, ky, kn)
  {
    hide Placed, Size, InstrsAt, PoolAt, EncodeAll, Encode;
    var tests, skips := [JumpIfFalse(Size(yes) + 4), Pop], [Jump(1 + Size(no)), Pop];
    var pc1 := pc + Size(cond);
    assert kc + ky + kn == kc + (ky + kn) && ky + kn == [] + (ky + kn) && kn == [] + kn;
    PlacedApart(p, pc, cond, tests + (yes + (skips + no)), base, kc, ky + kn);
    PlacedApart(p, pc1, tests, yes + (skips + no), base + |kc|, [], ky + kn);
    TwoPlaced(p, pc1, tests[0], Pop, base + |kc|);
    PlacedApart(p, pc1 + 4, yes, skips + no, base + |kc|, ky, kn);
    PlacedApart(p, pc1 + 4 + Size(yes), skips, no, base + |kc| + |ky|, [], kn);
    TwoPlaced(p, pc1 + 4 + Size(yes), skips[0], Pop, base + |kc| + |ky|);
  }

  lemma SameScope(s: Stmt, sc: Scope, depth: nat)
    requires Declared(s, depth) == 0
    ensures After(s, sc, depth) == sc
  {
    AfterExtends(s, sc, depth);
  }

  function CondCode(s: Stmt, t: Site): seq<Instr>
    requires s.IfS? || s.WhileS?
  {
    GenE(s.cond, t.sc, t.base)
  }

  /** The sites of the two branches. */
  function YesSite(s: Stmt, t: Site): Site
    requires s.IfS?
  {
    t.(base := t.base + |ConstsE(s.cond, t.sc)|, back := Further(t.back, Size(CondCode(s, t)) + 4))
  }

  function NoSite(s: Stmt, t: Site): Site
    requires s.IfS?
  {
    t.(sc := After(s.yes, t.sc, t.depth),
       base := t.base + |ConstsE(s.cond, t.sc)| + |Consts(s.yes, t.sc, t.depth)|,
       back := Further(t.back, Size(CondCode(s, t)) + 8 + Size(Code(s.yes, YesSite(s, t)))))
  }

  lemma IfReady(p: Program, pc: nat, s: Stmt, t: Site, env: Locals)
    requires s.IfS? && Ready(p, pc, s, t, env)
    ensures var cond, yes, no := CondCode(s, t), Code(s.yes, YesSite(s, t)), Code(s.no, NoSite(s, t));
            var pc1 := pc + Size(cond);
            && NoSite(s, t).sc == t.sc
            && Placed(p, pc, cond, t.base, ConstsE(s.cond, t.sc))
            && p.fetch(pc1) == Some(Decoded(JumpIfFalse(Size(yes) + 4), pc1 + 3))
            && p.fetch(pc1 + 3) == Some(Decoded(Pop, pc1 + 4))
            && p.fetch(pc1 + 4 + Size(yes)) == Some(Decoded(Jump(1 + Size(no)), pc1 + 7 + Size(yes)))
            && p.fetch(pc1 + 7 + Size(yes)) == Some(Decoded(Pop, pc1 + 8 + Size(yes)))
            && Placed(p, pc1 + 4, Patch(yes, t.brk - (pc1 + 4)), YesSite(s, t).base, Consts(s.yes, t.sc, t.depth))
            && Placed(p, pc1 + 8 + Size(yes), Patch(no, t.brk - (pc1 + 8 + Size(yes))), NoSite(s, t).base,
                      Consts(s.no, t.sc, t.depth))
            && Size(Code(s, t)) == Size(cond) + Size(yes) + Size(no) + 8
  {
    hide Placed, Patch, InstrsAt, PoolAt, GenE, NoHoles, Agree, Size, EncodeAll, Encode, ConstsE, Ok, OkE, Clean, CleanS;
    var cond, yes, no := CondCode(s, t), Code(s.yes, YesSite(s, t)), Code(s.no, NoSite(s, t));
    var d := t.brk - pc;
    var d1 := d - Size(cond) - 4;
    var d2 := d1 - Size(yes) - 4;
    NoHolesE(s.cond, t.sc, t.base);
    PatchBranches(cond, yes, no, d);
    PatchSize(yes, d1);
    PatchSize(no, d2);
    PatchSize(cond + Branches(yes, no), d);
    SameScope(s.yes, t.sc, t.depth);
    IfApart(p, pc, cond, Patch(yes, d1), Patch(no, d2), t.base,
            ConstsE(s.cond, t.sc), Consts(s.yes, t.sc, t.depth), Consts(s.no, t.sc, t.depth));
  }

  lemma IfReadyBranches(p: Program, pc: nat, s: Stmt, t: Site, env: Locals, env1: Locals)
    requires s.IfS? && Ready(p, pc, s, t, env) && Agree(t.sc, env1) && |env1| == |t.sc|
    ensures var pc1 := pc + Size(CondCode(s, t));
            && Ready(p, pc1 + 4, s.yes, YesSite(s, t), env1)
            && Ready(p, pc1 + 8 + Size(Code(s.yes, YesSite(s, t))), s.no, NoSite(s, t), env1)
  {
    hide Placed, Patch, InstrsAt, PoolAt, GenE, NoHoles, Agree, Size, EncodeAll, Encode, ConstsE, OkE, Clean;
    IfReady(p, pc, s, t, env);
  }

  lemma {:induction false} SimIf(p: Program, pc: nat, s: Stmt, t: Site, env: Locals, g: Globals, fuel: nat)
    requires s.IfS? && Ready(p, pc, s, t, env)
    ensures Follows(p, pc, s, t, env, g, fuel)
    decreases fuel, s, 0
  {
    hide Placed, Patch, InstrsAt, PoolAt, Gen, GenE, NoHoles, Agree, Size, EncodeAll, Encode, Goes, Values, Busy, Eval;
    var cond, yes, no := CondCode(s, t), Code(s.yes, YesSite(s, t)), Code(s.no, NoSite(s, t));
    var c, pc1 := Start(pc, env, g, []), pc + Size(cond);
    IfReady(p, pc, s, t, env);
    SimulateExpr(p, pc, s.cond, t.sc, t.base, env, g, []);
    var u := Eval(p.arith, s.cond, env, g);
    if u.Got? {
      IfReadyBranches(p, pc, s, t, env, u.env);
      if Falsey(u.value) {
        NotTaken(p, c, pc1, u, Size(yes) + 4);
        SimElse(p, pc, s, t, env, g, u, fuel);
      } else {
        FallThrough(p, c, pc1, u, [], Size(yes) + 4);
        SimThen(p, pc, s, t, env, g, u, fuel);
      }
    }
  }

  lemma {:induction false} SimElse(
    p: Program, pc: nat, s: Stmt, t: Site, env: Locals, g: Globals, u: Evaluated, fuel: nat)
    requires s.IfS? && Ready(p, pc, s, t, env)
    requires u == Eval(p.arith, s.cond, env, g) && u.Got? && Falsey(u.value)
    requires var at := pc + Size(CondCode(s, t)) + 8 + Size(Code(s.yes, YesSite(s, t)));
             Ready(p, at, s.no, NoSite(s, t), u.env) &&
             Goes(p, Start(pc, env, g, []), Start(at, u.env, u.globals, []))
    ensures Follows(p, pc, s, t, env, g, fuel)
    decreases fuel, s.no, 2
  {
    hide Placed, Patch, InstrsAt, PoolAt, GenE, NoHoles, Agree, Size, EncodeAll, Encode, Goes, Values, Busy, Eval;
    var at := pc + Size(CondCode(s, t)) + 8 + Size(Code(s.yes, YesSite(s, t)));
    IfReady(p, pc, s, t, env);
    SameScope(s.yes, t.sc, t.depth);
    SimulateStmt(p, at, s.no, NoSite(s, t), u.env, u.globals, fuel);
    EndsLater(p, Start(pc, env, g, []), Start(at, u.env, u.globals, []),
              Exec(p.arith, s.no, t.depth, u.env, u.globals, fuel),
              pc + Size(Code(s, t)), t.brk, LoopStart(pc, t), fuel);
  }

  lemma {:induction false} SimThen(
    p: Program, pc: nat, s: Stmt, t: Site, env: Locals, g: Globals, u: Evaluated, fuel: nat)
    requires s.IfS? && Ready(p, pc, s, t, env)
    requires u == Eval(p.arith, s.cond, env, g) && u.Got? && !Falsey(u.value)
    requires var at := pc + Size(CondCode(s, t)) + 4;
             Ready(p, at, s.yes, YesSite(s, t), u.env) &&
             Goes(p, Start(pc, env, g, []), Start(at, u.env, u.globals, []))
    ensures Follows(p, pc, s, t, env, g, fuel)
    decreases fuel, s.yes, 2
  {
    hide Placed, Patch, InstrsAt, PoolAt, GenE, NoHoles, Agree, Size, EncodeAll, Encode, Goes, Values, Busy, Eval;
    var at, yes := pc + Size(CondCode(s, t)) + 4, Code(s.yes, YesSite(s, t));
    IfReady(p, pc, s, t, env);
    SameScope(s.yes, t.sc, t.depth);
    SimulateStmt(p, at, s.yes, YesSite(s, t), u.env, u.globals, fuel);
    var o := Exec(p.arith, s.yes, t.depth, u.env, u.globals, fuel);
    if o.Normal? {
      NormalFalls(p.arith, s.yes, t.depth, u.env, u.globals, fuel);
      SameScope(s.no, t.sc, t.depth);
      JumpOver(p, Start(at, u.env, u.globals, []), at + Size(yes), o.env, o.globals, 1 + Size(Code(s.no, NoSite(s, t))));
    }
    EndsLater(p, Start(pc, env, g, []), Start(at, u.env, u.globals, []), o,
              pc + Size(Code(s, t)), t.brk, LoopStart(pc, t), fuel);
  }

  lemma JumpOver(p: Program, c: Config, pc: nat, env: Locals, g: Globals, over: nat)
    requires Goes(p, c, Start(pc, env, g, [])) && p.fetch(pc) == Some(Decoded(Jump(over), pc + 3))
    ensures Goes(p, c, Start(pc + 3 + over, env, g, []))
  {
    hide Goes, Values;
    GoesOneMore(p, c, Start(pc, env, g, []));
  }

  lemma DropRule(p: Program, pc: nat, env: Locals, g: Globals)
    requires env != [] && p.fetch(pc) == Some(Decoded(Pop, pc + 1))
    ensures Goes(p, Start(pc, env, g, []), Start(pc + 1, env[..|env| - 1], g, []))
  {
    hide Goes, Values;
    var top, low := env[|env| - 1], env[..|env| - 1];
    assert env == low + [top];
    NewLocal(low, top.name, top.value);
    Above(low, [], top.value);
    GoesStep(p, Start(pc, env, g, []));
  }

  /** Dropping the locals of a block one by one. */
  lemma {:induction false} PopsRule(p: Program, pc: nat, n: nat, env: Locals, g: Globals, base: nat)
    requires n <= |env| && Placed(p, pc, Pops(n), base, [])
    ensures Goes(p, Start(pc, env, g, []), Start(pc + n, env[..|env| - n], g, []))
    decreases n
  {
    hide Goes, InstrsAt, PoolAt, Placed, Values, Size, Encode, EncodeAll;
    if n == 0 {
      assert env[..|env|] == env;
      GoesNowhere(p, Start(pc, env, g, []));
    } else {
      var low := env[..|env| - 1];
      var none: seq<Value> := [];
      assert none == none + none;
      PlacedApart(p, pc, [Pop], Pops(n - 1), base, none, none);
      PlacedFirst(p, pc, Pop, base, []);
      DropRule(p, pc, env, g);
      PopsRule(p, pc + 1, n - 1, low, g, base);
      assert low[..|low| - (n - 1)] == env[..|env| - n];
      GoesOn(p, Start(pc, env, g, []), Start(pc + 1, low, g, []), Start(pc + n, env[..|env| - n], g, []));
    }
  }

  lemma BlockReady(p: Program, pc: nat, s: Stmt, t: Site, env: Locals)
    requires s.BlockS? && Ready(p, pc, s, t, env)
    ensures var body, n := Code(s.body, t.(depth := t.depth + 1)), Declared(s.body, t.depth + 1);
            && Ready(p, pc, s.body, t.(depth := t.depth + 1), env)
            && Placed(p, pc + Size(body), Pops(n), t.base + |Consts(s.body, t.sc, t.depth + 1)|, [])
            && Size(Code(s, t)) == Size(body) + n
  {
    hide Placed, InstrsAt, PoolAt, NoHoles, Agree, Size, EncodeAll, Encode, Patch, Pops;
    var body, n := Code(s.body, t.(depth := t.depth + 1)), Declared(s.body, t.depth + 1);
    var k := Consts(s.body, t.sc, t.depth + 1);
    PatchAppend(body, Pops(n), t.brk - pc);
    PopsHaveNoHoles(n);
    PatchNothing(Pops(n), t.brk - pc - Size(body));
    PatchSize(body, t.brk - pc);
    EncodeAllAppend(body, Pops(n));
    assert k == k + [];
    PlacedApart(p, pc, Patch(body, t.brk - pc), Pops(n), t.base, k, []);
  }

  lemma {:induction false} SimBlock(p: Program, pc: nat, s: Stmt, t: Site, env: Locals, g: Globals, fuel: nat)
    requires s.BlockS? && Ready(p, pc, s, t, env)
    ensures Follows(p, pc, s, t, env, g, fuel)
    decreases fuel, s, 0
  {
    hide Placed, InstrsAt, PoolAt, Gen, NoHoles, Agree, Size, EncodeAll, Encode, Patch, Pops, Goes, Values, Busy;
    var b, tb := s.body, t.(depth := t.depth + 1);
    var body, n := Code(b, tb), Declared(b, t.depth + 1);
    var c := Start(pc, env, g, []);
    BlockReady(p, pc, s, t, env);
    SimulateStmt(p, pc, b, tb, env, g, fuel);
    var o := Exec(p.arith, b, t.depth + 1, env, g, fuel);
    AfterExtends(b, t.sc, t.depth + 1);
    if o.Normal? {
      PopsRule(p, pc + Size(body), n, o.env, o.globals, t.base + |Consts(b, t.sc, t.depth + 1)|);
      GoesOn(p, c, Start(pc + Size(body), o.env, o.globals, []),
             Start(pc + Size(body) + n, o.env[..|env|], o.globals, []));
      AgreeShorter(t.sc, After(b, t.sc, t.depth + 1), o.env, env);
    } else if o.Broke? || o.Skipped? {
      assert |o.env| == |env| ==> o.env[..|env|] == o.env;
    }
  }

  lemma AgreeShorter(sc: Scope, sc1: Scope, env1: Locals, env: Locals)
    requires sc <= sc1 && |env1| == |sc1| && Agree(sc1, env1) && Agree(sc, env) && |env| == |sc|
    ensures Agree(sc, env1[..|sc|])
  {
    forall i | 0 <= i < |sc|
      ensures sc[i].name == env1[..|sc|][i].name && sc[i].depth >= 0
    {
      assert sc1[i] == sc[i];
    }
  }

  /** The site of a loop body. */
  function BodySite(s: Stmt, t: Site, pc: nat): Site
    requires s.WhileS?
  {
    var cond := CondCode(s, t);
    var back, base := Some(Size(cond) + 4), t.base + |ConstsE(s.cond, t.sc)|;
    Site(t.sc, t.depth, base, back, Some(|t.sc|),
         pc + Size(cond) + Size(Gen(s.body, t.sc, t.depth, base, back)) + 8)
  }

  lemma LoopApart(p: Program, pc: nat, cond: seq<Instr>, body: seq<Instr>, base: nat, kc: seq<Value>, kb: seq<Value>)
    requires Placed(p, pc, Looped(cond, body), base, kc + kb)
    ensures var at := pc + Size(cond) + 4;
            var end := at + Size(body);
            && Placed(p, pc, cond, base, kc)
            && p.fetch(at - 4) == Some(Decoded(JumpIfFalse(Size(body) + 4), at - 1))
            && p.fetch(at - 1) == Some(Decoded(Pop, at))
            && Placed(p, at, Patch(body, Size(body) + 4), base + |kc|, kb)
            && p.fetch(end) == Some(Decoded(Loop(Size(cond) + Size(body) + 7), end + 3))
            && p.fetch(end + 3) == Some(Decoded(Pop, end + 4))
    ensures Size(Looped(cond, body)) == Size(cond) + Size(body) + 8
  {
    hide Placed, Size, InstrsAt, PoolAt, EncodeAll, Encode, Patch;
    var inner := Patch(body, Size(body) + 4);
    var tests, ends := [JumpIfFalse(Size(body) + 4), Pop], [Loop(Size(cond) + Size(body) + 7), Pop];
    PatchSize(body, Size(body) + 4);
    assert kb == [] + kb && kb == kb + [];
    PlacedApart(p, pc, cond, tests + (inner + ends), base, kc, kb);
    PlacedApart(p, pc + Size(cond), tests, inner + ends, base + |kc|, [], kb);
    TwoPlaced(p, pc + Size(cond), tests[0], Pop, base + |kc|);
    PlacedApart(p, pc + Size(cond) + 4, inner, ends, base + |kc|, kb, []);
    TwoPlaced(p, pc + Size(cond) + 4 + Size(body), ends[0], Pop, base + |kc| + |kb|);
  }

  /** Everything there is to know about the code of a loop. */
  predicate LoopPlaced(p: Program, pc: nat, s: Stmt, t: Site)
    requires s.WhileS?
  {
    var cond, body := CondCode(s, t), Code(s.body, BodySite(s, t, pc));
    var at := pc + Size(cond) + 4;
    var end := at + Size(body);
    && Placed(p, pc, cond, t.base, ConstsE(s.cond, t.sc))
    && p.fetch(at - 4) == Some(Decoded(JumpIfFalse(Size(body) + 4), at - 1))
    && p.fetch(at - 1) == Some(Decoded(Pop, at))
    && p.fetch(end) == Some(Decoded(Loop(Size(cond) + Size(body) + 7), end + 3))
    && p.fetch(end + 3) == Some(Decoded(Pop, end + 4))
    && Size(Code(s, t)) == Size(cond) + Size(body) + 8
    && BodySite(s, t, pc).brk == end + 4
  }

  lemma WhileReady(p: Program, pc: nat, s: Stmt, t: Site, env: Locals, env1: Locals)
    requires s.WhileS? && Ready(p, pc, s, t, env) && Agree(t.sc, env1) && |env1| == |t.sc|
    ensures LoopPlaced(p, pc, s, t)
    ensures Ready(p, pc + Size(CondCode(s, t)) + 4, s.body, BodySite(s, t, pc), env1)
    ensures After(s, t.sc, t.depth) == After(s.body, t.sc, t.depth) == t.sc
  {
    hide Placed, InstrsAt, PoolAt, NoHoles, Agree, Size, EncodeAll, Encode, Patch, GenE, OkE, Clean;
    var cond, body := CondCode(s, t), Code(s.body, BodySite(s, t, pc));
    NoHolesE(s.cond, t.sc, t.base);
    LoopedHasNoHoles(cond, body);
    PlacedPatched(p, pc, Looped(cond, body), t.brk - pc, t.base,
                  ConstsE(s.cond, t.sc) + Consts(s.body, t.sc, t.depth));
    LoopApart(p, pc, cond, body, t.base, ConstsE(s.cond, t.sc), Consts(s.body, t.sc, t.depth));
    SameScope(s.body, t.sc, t.depth);
  }

  lemma {:induction false} SimWhile(p: Program, pc: nat, s: Stmt, t: Site, env: Locals, g: Globals, fuel: nat)
    requires s.WhileS? && Ready(p, pc, s, t, env)
    ensures Follows(p, pc, s, t, env, g, fuel)
    decreases fuel, s, 0
  {
    hide Placed, Patch, InstrsAt, PoolAt, Gen, GenE, NoHoles, Agree, Size, EncodeAll, Encode, Goes, Values, Eval, Ready;
    WhileReady(p, pc, s, t, env, env) by { ReadyAgrees(p, pc, s, t, env); }
    ReadyAgrees(p, pc, s, t, env);
    if fuel > 0 {
      var c, at := Start(pc, env, g, []), pc + Size(CondCode(s, t)) + 4;
      SimulateExpr(p, pc, s.cond, t.sc, t.base, env, g, []);
      var u := Eval(p.arith, s.cond, env, g);
      if u.Got? {
        var over := Size(Code(s.body, BodySite(s, t, pc))) + 4;
        if Falsey(u.value) {
          NotTaken(p, c, at - 4, u, over);
        } else {
          SimRound(p, pc, s, t, env, g, u, fuel);
        }
      }
    }
  }

  lemma ReadyAgrees(p: Program, pc: nat, s: Stmt, t: Site, env: Locals)
    requires Ready(p, pc, s, t, env)
    ensures Agree(t.sc, env) && |env| == |t.sc| && CleanS(s) && Ok(s, t.sc, t.depth, t.back.Some?)
  {
  }

  lemma ReadyAgain(p: Program, pc: nat, s: Stmt, t: Site, env: Locals, env1: Locals)
    requires Ready(p, pc, s, t, env) && Agree(t.sc, env1) && |env1| == |t.sc|
    ensures Ready(p, pc, s, t, env1)
  {
    hide Placed, Patch, Agree;
  }

  /** One round of a loop whose condition was true, and everything after it. */
  lemma {:induction false} SimRound(
    p: Program, pc: nat, s: Stmt, t: Site, env: Locals, g: Globals, u: Evaluated, fuel: nat)
    requires fuel > 0 && s.WhileS? && Ready(p, pc, s, t, env)
    requires u == Eval(p.arith, s.cond, env, g) && u.Got? && !Falsey(u.value) && Agree(t.sc, u.env)
    requires Goes(p, Start(pc, env, g, []), Arrived(u, pc + Size(CondCode(s, t)), []))
    ensures Follows(p, pc, s, t, env, g, fuel)
    decreases fuel, s.body, 2
  {
    hide Placed, Patch, InstrsAt, PoolAt, Gen, GenE, NoHoles, Agree, Size, EncodeAll, Encode, Goes, Values, Eval, Ready, Busy;
    ReadyAgrees(p, pc, s, t, env);
    WhileReady(p, pc, s, t, env, u.env);
    var c, at, tb := Start(pc, env, g, []), pc + Size(CondCode(s, t)) + 4, BodySite(s, t, pc);
    var body := Code(s.body, tb);
    var c1 := Start(at, u.env, u.globals, []);
    FallThrough(p, c, at - 4, u, [], Size(body) + 4);
    SimulateStmt(p, at, s.body, tb, u.env, u.globals, fuel);
    var o := Exec(p.arith, s.body, t.depth, u.env, u.globals, fuel);
    AtOwnLoop(o, t.sc);
    if o.Normal? {
      JumpBack(p, c1, at + Size(body), o.env, o.globals, Size(CondCode(s, t)) + Size(body) + 7);
    }
    if o.Normal? || o.Skipped? {
      var c2 := Start(pc, o.env, o.globals, []);
      ReadyAgain(p, pc, s, t, env, o.env);
      SimulateStmt(p, pc, s, t, o.env, o.globals, fuel - 1);
      AnotherRound(p, c, at - 1, u, c2, Exec(p.arith, s, t.depth, o.env, o.globals, fuel - 1),
                   pc + Size(Code(s, t)), t.brk, LoopStart(pc, t), fuel);
    } else {
      EndsLater(p, c, c1, o, at + Size(body), tb.brk, LoopStart(at, tb), fuel);
    }
  }

  lemma AtOwnLoop(o: Outcome, sc: Scope)
    requires Tracks(o, sc, sc, Some(|sc|))
    ensures o.Normal? || o.Broke? || o.Skipped? ==> |o.env| == |sc| && Agree(sc, o.env)
  {
    assert sc[..|sc|] == sc;
  }

  lemma JumpBack(p: Program, c: Config, pc: nat, env: Locals, g: Globals, dist: nat)
    requires dist <= pc + 3
    requires Goes(p, c, Start(pc, env, g, [])) && p.fetch(pc) == Some(Decoded(Loop(dist), pc + 3))
    ensures Goes(p, c, Start(pc + 3 - dist, env, g, []))
  {
    hide Goes, Values;
    GoesOneMore(p, c, Start(pc, env, g, []));
  }

  /** A round takes at least one instruction, so that running out of rounds means running on. */
  lemma AnotherRound(p: Program, c: Config, drop: nat, u: Evaluated, c2: Config, o: Outcome,
                     next: int, brk: int, loop: int, fuel: nat)
    requires fuel > 0 && u.Got? && !Falsey(u.value)
    requires drop >= 3 && Goes(p, c, Arrived(u, drop - 3, []))
    requires p.fetch(drop - 3).Some? && p.fetch(drop - 3).value.instr.JumpIfFalse? && p.fetch(drop - 3).value.next == drop
    requires p.fetch(drop) == Some(Decoded(Pop, drop + 1))
    requires Goes(p, Start(drop + 1, u.env, u.globals, []), c2)
    requires Ends(p, c2, o, next, brk, loop, fuel - 1)
    ensures Ends(p, c, o, next, brk, loop, fuel)
  {
    hide Goes, Values, Busy;
    var d, d1 := Arrived(u, drop, []), Start(drop + 1, u.env, u.globals, []);
    Above(u.env, [], u.value);
    GoesOneMore(p, c, Arrived(u, drop - 3, []));
    assert Step(p, d) == d1;
    if o.Timeout? {
      BusyLater(p, d1, c2, fuel - 1);
      BusyStep(p, d, fuel - 1);
      BusyLater(p, c, d, fuel);
    } else {
      GoesStep(p, d);
      GoesOn(p, c, d, d1);
      GoesOn(p, c, d1, c2);
      EndsLater(p, c, c2, o, next, brk, loop, fuel);
    }
  }
}
