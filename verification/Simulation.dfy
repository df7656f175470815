/**
  The compiled code does what the program means: wherever the code of a syntax tree is
  placed, running it from the stack of the current locals ends as the interpreter ends.
 */
module Simulation {
  import opened Wrappers
  import opened Bytecode
  import opened Syntax
  import opened Semantics
  import opened CodeGen
  import opened Machine

  /** The stack holds the values of the locals, bottom up. */
  function Values(env: Locals): (vs: seq<Value>)
    ensures |vs| == |env|
    ensures forall i :: 0 <= i < |env| ==> vs[i] == env[i].value
  {
    seq(|env|, i requires 0 <= i < |env| => env[i].value)
  }

  /** The compiler's locals are the run-time bindings, possibly followed by ones being initialized. */
  predicate Agree(sc: Scope, env: Locals) {
    && |env| <= |sc|
    && (forall i :: 0 <= i < |env| ==> sc[i].name == env[i].name && sc[i].depth >= 0)
    && (forall i :: |env| <= i < |sc| ==> sc[i].depth == -1)
  }

  /** The compiler and the interpreter find the same variable. */
  lemma {:induction false} ResolveFinds(sc: Scope, env: Locals, x: string)
    requires Agree(sc, env) && OkName(x, sc)
    ensures Resolve(sc, x) == Find(env, x)
    decreases |sc|
  {
    if sc != [] && sc[|sc| - 1].name != x {
      var low := sc[..|sc| - 1];
      assert Resolve(sc, x) == Resolve(low, x);
      if |env| == |sc| {
        ResolveFinds(low, env[..|env| - 1], x);
      } else {
        ResolveFinds(low, env, x);
      }
    }
  }

  predicate PoolAt(pool: seq<Value>, base: nat, consts: seq<Value>) {
    base + |consts| <= |pool| && pool[base..base + |consts|] == consts
  }

  lemma PoolApart(pool: seq<Value>, base: nat, a: seq<Value>, b: seq<Value>)
    requires PoolAt(pool, base, a + b)
    ensures PoolAt(pool, base, a) && PoolAt(pool, base + |a|, b)
  {
    var c := pool[base..base + |a + b|];
    assert c[..|a|] == a && c[|a|..] == b;
  }

  lemma PoolHead(pool: seq<Value>, base: nat, c: Value)
    requires PoolAt(pool, base, [c])
    ensures base < |pool| && pool[base] == c
  {
    assert pool[base] == pool[base..base + 1][0];
  }

  /** The machine configuration an evaluated expression ends in. */
  function Arrived(r: Evaluated, next: nat, below: seq<Value>): Config {
    match r
    case Got(v, env, g) => Running(next, Values(env) + below + [v], g)
    case Raised(err, g) => Crashed(err, g)
  }

  predicate MainPool(p: Program) {
    |p.pool| > 0 && p.pool[0] == NoneV
  }

  /** Reading a variable pushes what the interpreter reads. */
  lemma SimGet(p: Program, pc: nat, x: string, sc: Scope, base: nat, env: Locals, g: Globals, tmp: seq<Value>)
    requires MainPool(p) && Agree(sc, env) && OkName(x, sc) && PoolAt(p.pool, base, NameConst(x, sc))
    requires p.fetch(pc) == Some(Decoded(GetVar(x, sc, base), pc + Len(GetVar(x, sc, base))))
    ensures Step(p, Running(pc, Values(env) + tmp, g)) ==
            match Read(x, env, g)
            case Result(v) => Running(pc + Len(GetVar(x, sc, base)), Values(env) + tmp + [v], g)
            case Error(err) => Crashed(err, g)
  {
    ResolveFinds(sc, env, x);
    if Resolve(sc, x) >= 0 {
      assert (Values(env) + tmp)[Resolve(sc, x)] == env[Resolve(sc, x)].value;
    } else {
      PoolHead(p.pool, base, StrV(x));
    }
  }

  /** Writing a variable does what the interpreter does. */
  lemma SimSet(p: Program, pc: nat, x: string, v: Value, sc: Scope, base: nat, env: Locals, g: Globals, tmp: seq<Value>)
    requires MainPool(p) && Agree(sc, env) && OkName(x, sc) && PoolAt(p.pool, base, NameConst(x, sc))
    requires p.fetch(pc) == Some(Decoded(SetVar(x, sc, base), pc + Len(SetVar(x, sc, base))))
    ensures Step(p, Running(pc, Values(env) + tmp + [v], g)) ==
            Arrived(Write(x, v, env, g), pc + Len(SetVar(x, sc, base)), tmp)
    ensures Write(x, v, env, g).Got? ==> Agree(sc, Write(x, v, env, g).env)
  {
    hide Apply, Eval, Read, Len, Encode, GenE, EncodeAll, Size;
    ResolveFinds(sc, env, x);
    var stack := Values(env) + tmp + [v];
    assert stack[..|stack| - 1] == Values(env) + tmp;
    var i := Resolve(sc, x);
    if i >= 0 {
      assert (Values(env) + tmp)[i := v] == Values(env[i := Binding(x, v)]) + tmp;
    } else {
      PoolHead(p.pool, base, StrV(x));
    }
  }

  /** The machine gets from one configuration to another. */
  ghost predicate Goes(p: Program, c: Config, d: Config) {
    exists n: nat :: Run(p, c, n) == d
  }

  lemma GoesNowhere(p: Program, c: Config)
    ensures Goes(p, c, c)
  {
    assert Run(p, c, 0) == c;
  }

  lemma GoesStep(p: Program, c: Config)
    ensures Goes(p, c, Step(p, c))
  {
    assert Run(p, c, 1) == Run(p, Step(p, c), 0) == Step(p, c);
  }

  lemma GoesOn(p: Program, c: Config, d: Config, e: Config)
    requires Goes(p, c, d) && Goes(p, d, e)
    ensures Goes(p, c, e)
  {
    var m: nat :| Run(p, c, m) == d;
    var n: nat :| Run(p, d, n) == e;
    RunAdd(p, c, m, n);
  }

  /** One more instruction. */
  lemma GoesOneMore(p: Program, c: Config, d: Config)
    requires Goes(p, c, d)
    ensures Goes(p, c, Step(p, d))
  {
    GoesStep(p, d);
    GoesOn(p, c, d, Step(p, d));
  }

  /** Where an expression of the current locals starts. */
  function Start(pc: nat, env: Locals, g: Globals, tmp: seq<Value>): Config {
    Running(pc, Values(env) + tmp, g)
  }

  predicate Placed(p: Program, pc: nat, ins: seq<Instr>, base: nat, consts: seq<Value>) {
    MainPool(p) && InstrsAt(p.fetch, pc, ins) && PoolAt(p.pool, base, consts)
  }

  lemma PlacedApart(p: Program, pc: nat, a: seq<Instr>, b: seq<Instr>, base: nat, k: seq<Value>, l: seq<Value>)
    requires Placed(p, pc, a + b, base, k + l)
    ensures Placed(p, pc, a, base, k) && Placed(p, pc + Size(a), b, base + |k|, l)
    ensures Size(a + b) == Size(a) + Size(b)
  {
    InstrsAtAppend(p.fetch, pc, a, b);
    PoolApart(p.pool, base, k, l);
    EncodeAllAppend(a, b);
  }

  lemma PlacedLast(p: Program, pc: nat, a: seq<Instr>, i: Instr, base: nat, k: seq<Value>)
    requires Placed(p, pc, a + [i], base, k)
    ensures Placed(p, pc, a, base, k)
    ensures p.fetch(pc + Size(a)) == Some(Decoded(i, pc + Size(a) + Len(i)))
    ensures Size(a + [i]) == Size(a) + Len(i)
  {
    assert k == k + [];
    PlacedApart(p, pc, a, [i], base, k, []);
  }

  /** What has been proved of the code of an expression. */
  ghost predicate Simulates(p: Program, pc: nat, e: Expr, sc: Scope, base: nat, env: Locals, g: Globals, tmp: seq<Value>)
    requires Clean(e)
  {
    var r := Eval(p.arith, e, env, g);
    && Goes(p, Start(pc, env, g, tmp), Arrived(r, pc + Size(GenE(e, sc, base)), tmp))
    && (r.Got? ==> Agree(sc, r.env))
  }

  /**
    The code of every expression, placed anywhere and started on any stack above the locals,
    ends with the value pushed and the variables updated, or with the same runtime error.
   */
  lemma {:induction false} SimulateExpr(
    p: Program, pc: nat, e: Expr, sc: Scope, base: nat, env: Locals, g: Globals, tmp: seq<Value>)
    requires Clean(e) && OkE(e, sc) && Agree(sc, env)
    requires Placed(p, pc, GenE(e, sc, base), base, ConstsE(e, sc))
    ensures Simulates(p, pc, e, sc, base, env, g, tmp)
    decreases e
  {
    match e
    case Lit(l) => SimLiteral(p, pc, l, sc, base, env, g, tmp);
    case Var(x) => SimVariable(p, pc, x, sc, base, env, g, tmp);
    case Assign(x, v) => SimAssign(p, pc, e, sc, base, env, g, tmp);
    case Update(x, op, v) => SimUpdate(p, pc, e, sc, base, env, g, tmp);
    case NotE(a) => SimUnary(p, pc, e, sc, base, env, g, tmp);
    case NegE(a) => SimUnary(p, pc, e, sc, base, env, g, tmp);
    case Bin(op, l, r) => SimBinary(p, pc, e, sc, base, env, g, tmp);
    case And(l, r) => SimAnd(p, pc, e, sc, base, env, g, tmp);
    case Or(l, r) => SimOr(p, pc, e, sc, base, env, g, tmp);
  }

  lemma SimLiteral(p: Program, pc: nat, l: Literal, sc: Scope, base: nat, env: Locals, g: Globals, tmp: seq<Value>)
    requires Agree(sc, env)
    requires Placed(p, pc, GenE(Lit(l), sc, base), base, ConstsE(Lit(l), sc))
    ensures Simulates(p, pc, Lit(l), sc, base, env, g, tmp)
  {
    if l.NumberLit? || l.StringLit? {
      PoolHead(p.pool, base, LiteralValue(l));
    }
    GoesStep(p, Start(pc, env, g, tmp));
  }

  lemma SimVariable(p: Program, pc: nat, x: string, sc: Scope, base: nat, env: Locals, g: Globals, tmp: seq<Value>)
    requires Agree(sc, env) && OkName(x, sc)
    requires Placed(p, pc, GenE(Var(x), sc, base), base, ConstsE(Var(x), sc))
    ensures Simulates(p, pc, Var(x), sc, base, env, g, tmp)
  {
    SimGet(p, pc, x, sc, base, env, g, tmp);
    GoesStep(p, Start(pc, env, g, tmp));
  }

  /** Where the machine is once an operand has been evaluated. */
  lemma Above(env: Locals, tmp: seq<Value>, v: Value)
    ensures Values(env) + (tmp + [v]) == Values(env) + tmp + [v]
    ensures var stack := Values(env) + tmp + [v];
            stack != [] && stack[|stack| - 1] == v && stack[..|stack| - 1] == Values(env) + tmp
  {
  }

  lemma {:induction false} SimAssign(
    p: Program, pc: nat, e: Expr, sc: Scope, base: nat, env: Locals, g: Globals, tmp: seq<Value>)
    requires e.Assign? && Clean(e) && OkE(e, sc) && Agree(sc, env)
    requires Placed(p, pc, GenE(e, sc, base), base, ConstsE(e, sc))
    ensures Simulates(p, pc, e, sc, base, env, g, tmp)
    decreases e, 0
  {
    hide InstrsAt, Goes, PoolAt, Agree, Run, Values, Size, EncodeAll, Encode, Len, Placed, Resolve, Step, Apply, Write, Read;
    var x, v := e.target, e.value;
    var name := NameConst(x, sc);
    var code := GenE(v, sc, base + |name|);
    PlacedLast(p, pc, code, SetVar(x, sc, base), base, name + ConstsE(v, sc));
    assert code == [] + code;
    PlacedApart(p, pc, [], code, base, name, ConstsE(v, sc));
    SimulateExpr(p, pc, v, sc, base + |name|, env, g, tmp);
    var r := Eval(p.arith, v, env, g);
    if r.Got? {
      SimSet(p, pc + Size(code), x, r.value, sc, base, r.env, r.globals, tmp);
      GoesOneMore(p, Start(pc, env, g, tmp), Arrived(r, pc + Size(code), tmp));
    }
  }

  lemma {:induction false} SimUpdate(
    p: Program, pc: nat, e: Expr, sc: Scope, base: nat, env: Locals, g: Globals, tmp: seq<Value>)
    requires e.Update? && Clean(e) && OkE(e, sc) && Agree(sc, env)
    requires Placed(p, pc, GenE(e, sc, base), base, ConstsE(e, sc))
    ensures Simulates(p, pc, e, sc, base, env, g, tmp)
    decreases e, 0
  {
    hide InstrsAt, Goes, PoolAt, Agree, Run, Values, Size, EncodeAll, Encode, Placed, Resolve, Step, Apply, Write, Read;
    var x, v, op := e.target, e.value, e.op;
    var name := NameConst(x, sc);
    var get, code := GetVar(x, sc, base), GenE(v, sc, base + |name|);
    var k := name + ConstsE(v, sc);
    PlacedLast(p, pc, [get] + code + [Binary(op)], SetVar(x, sc, base), base, k);
    PlacedLast(p, pc, [get] + code, Binary(op), base, k);
    PlacedApart(p, pc, [get], code, base, name, ConstsE(v, sc));
    PlacedFirst(p, pc, get, base, name);
    SimGet(p, pc, x, sc, base, env, g, tmp);
    GoesStep(p, Start(pc, env, g, tmp));
    var u := Read(x, env, g);
    if u.Result? {
      Above(env, tmp, u.value);
      var pc1 := pc + Len(get);
      SimulateExpr(p, pc1, v, sc, base + |name|, env, g, tmp + [u.value]);
      var r := Eval(p.arith, v, env, g);
      var c1 := Arrived(r, pc1 + Size(code), tmp + [u.value]);
      GoesOn(p, Start(pc, env, g, tmp), Start(pc1, env, g, tmp + [u.value]), c1);
      if r.Got? {
        SimApply(p, pc1 + Size(code), op, u.value, r, tmp);
        GoesOneMore(p, Start(pc, env, g, tmp), c1);
        var w := Apply(p.arith, op, u.value, r.value);
        if w.Result? {
          var pc2 := pc1 + Size(code) + 1;
          SimSet(p, pc2, x, w.value, sc, base, r.env, r.globals, tmp);
          GoesOneMore(p, Start(pc, env, g, tmp), Running(pc2, Values(r.env) + tmp + [w.value], r.globals));
        }
      }
    }
  }

  lemma PlacedFirst(p: Program, pc: nat, i: Instr, base: nat, k: seq<Value>)
    requires Placed(p, pc, [i], base, k)
    ensures p.fetch(pc) == Some(Decoded(i, pc + Len(i))) && Size([i]) == Len(i)
  {
  }

  /** A binary opcode replaces the two operands by what the operator yields. */
  lemma SimApply(p: Program, pc: nat, op: BinOp, u: Value, r: Evaluated, tmp: seq<Value>)
    requires r.Got? && p.fetch(pc) == Some(Decoded(Binary(op), pc + 1))
    ensures Step(p, Arrived(r, pc, tmp + [u])) ==
            match Apply(p.arith, op, u, r.value)
            case Result(w) => Running(pc + 1, Values(r.env) + tmp + [w], r.globals)
            case Error(err) => Crashed(err, r.globals)
  {
    hide Apply;
    Above(r.env, tmp + [u], r.value);
    Above(r.env, tmp, u);
  }

  lemma {:induction false} SimUnary(
    p: Program, pc: nat, e: Expr, sc: Scope, base: nat, env: Locals, g: Globals, tmp: seq<Value>)
    requires (e.NotE? || e.NegE?) && Clean(e) && OkE(e, sc) && Agree(sc, env)
    requires Placed(p, pc, GenE(e, sc, base), base, ConstsE(e, sc))
    ensures Simulates(p, pc, e, sc, base, env, g, tmp)
    decreases e, 0
  {
    hide InstrsAt, Goes, PoolAt, Agree, Run, Values, Size, EncodeAll, Encode, Placed, Resolve, Step, Apply, Write, Read;
    var a := e.operand;
    var code := GenE(a, sc, base);
    PlacedLast(p, pc, code, if e.NotE? then Not else Neg, base, ConstsE(a, sc));
    SimulateExpr(p, pc, a, sc, base, env, g, tmp);
    var r := Eval(p.arith, a, env, g);
    if r.Got? {
      UnaryRule(p, Start(pc, env, g, tmp), pc + Size(code), if e.NotE? then Not else Neg, r, tmp);
    }
  }

  lemma UnaryRule(p: Program, c: Config, pc: nat, i: Instr, r: Evaluated, tmp: seq<Value>)
    requires r.Got? && Goes(p, c, Arrived(r, pc, tmp))
    requires (i == Not || i == Neg) && p.fetch(pc) == Some(Decoded(i, pc + 1))
    ensures i == Not ==> Goes(p, c, Running(pc + 1, Values(r.env) + tmp + [BoolV(Falsey(r.value))], r.globals))
    ensures i == Neg && r.value.NumV? ==>
            Goes(p, c, Running(pc + 1, Values(r.env) + tmp + [NumV(p.arith.negate(r.value.number))], r.globals))
    ensures i == Neg && !r.value.NumV? ==> Goes(p, c, Crashed(DiffTypes, r.globals))
  {
    hide Goes, Values;
    Above(r.env, tmp, r.value);
    GoesOneMore(p, c, Arrived(r, pc, tmp));
  }

  lemma {:induction false} SimBinary(
    p: Program, pc: nat, e: Expr, sc: Scope, base: nat, env: Locals, g: Globals, tmp: seq<Value>)
    requires e.Bin? && Clean(e) && OkE(e, sc) && Agree(sc, env)
    requires Placed(p, pc, GenE(e, sc, base), base, ConstsE(e, sc))
    ensures Simulates(p, pc, e, sc, base, env, g, tmp)
    decreases e, 0
  {
    hide InstrsAt, Goes, PoolAt, Agree, Run, Values, Size, EncodeAll, Encode, Placed, Resolve, Step, Apply, Write, Read;
    var l, r := e.left, e.right;
    var kl, kr := ConstsE(l, sc), ConstsE(r, sc);
    var left, right := GenE(l, sc, base), GenE(r, sc, base + |kl|);
    PlacedLast(p, pc, left + right, Binary(e.op), base, kl + kr);
    PlacedApart(p, pc, left, right, base, kl, kr);
    SimulateExpr(p, pc, l, sc, base, env, g, tmp);
    var u := Eval(p.arith, l, env, g);
    if u.Got? {
      var pc1 := pc + Size(left);
      var c := Start(pc, env, g, tmp);
      Above(u.env, tmp, u.value);
      SimulateExpr(p, pc1, r, sc, base + |kl|, u.env, u.globals, tmp + [u.value]);
      var v := Eval(p.arith, r, u.env, u.globals);
      var c1 := Arrived(v, pc1 + Size(right), tmp + [u.value]);
      GoesOn(p, c, Start(pc1, u.env, u.globals, tmp + [u.value]), c1);
      if v.Got? {
        SimApply(p, pc1 + Size(right), e.op, u.value, v, tmp);
        GoesOneMore(p, c, c1);
      }
    }
  }

  /** The code of a short-circuit operator: left operand, jumps, right operand, conversion. */
  lemma ShortCircuitPlaced(p: Program, pc: nat, left: seq<Instr>, jumps: seq<Instr>, right: seq<Instr>,
                           base: nat, kl: seq<Value>, kr: seq<Value>)
    requires Placed(p, pc, left + jumps + right + [ToBool], base, kl + kr)
    ensures Placed(p, pc, left, base, kl)
    ensures Placed(p, pc + Size(left), jumps, base, [])
    ensures Placed(p, pc + Size(left) + Size(jumps), right, base + |kl|, kr)
    ensures p.fetch(pc + Size(left) + Size(jumps) + Size(right)) ==
            Some(Decoded(ToBool, pc + Size(left) + Size(jumps) + Size(right) + 1))
    ensures Size(left + jumps + right + [ToBool]) == Size(left) + Size(jumps) + Size(right) + 1
  {
    hide InstrsAt, PoolAt, Size, EncodeAll, Encode;
    PlacedLast(p, pc, left + jumps + right, ToBool, base, kl + kr);
    PlacedApart(p, pc, left + jumps, right, base, kl, kr);
    assert kl == kl + [];
    PlacedApart(p, pc, left, jumps, base, kl, []);
    PoolNothing(p.pool, base, kl);
  }

  lemma PoolNothing(pool: seq<Value>, base: nat, k: seq<Value>)
    requires PoolAt(pool, base, k)
    ensures PoolAt(pool, base, [])
  {
  }

  /** The right operand of a short-circuit operator, converted to a truth value. */
  lemma {:induction false} SimRight(
    p: Program, pc: nat, e: Expr, r: Expr, sc: Scope, base: nat, env: Locals, g: Globals, tmp: seq<Value>)
    requires r < e && Clean(r) && OkE(r, sc) && Agree(sc, env)
    requires Placed(p, pc, GenE(r, sc, base), base, ConstsE(r, sc))
    requires var end := pc + Size(GenE(r, sc, base)); p.fetch(end) == Some(Decoded(ToBool, end + 1))
    ensures var v := Truth(Eval(p.arith, r, env, g));
            && Goes(p, Start(pc, env, g, tmp), Arrived(v, pc + Size(GenE(r, sc, base)) + 1, tmp))
            && (v.Got? ==> Agree(sc, v.env))
    decreases e, 0
  {
    hide InstrsAt, Goes, PoolAt, Agree, Run, Values, Size, EncodeAll, Encode, Placed, Resolve, Apply, GenE, ConstsE, Eval, Clean, OkE;
    SimulateExpr(p, pc, r, sc, base, env, g, tmp);
    var v := Eval(p.arith, r, env, g);
    if v.Got? {
      Above(v.env, tmp, v.value);
      GoesOneMore(p, Start(pc, env, g, tmp), Arrived(v, pc + Size(GenE(r, sc, base)), tmp));
    }
  }

  /** A false left operand jumps over the right one and is converted. */
  lemma SimShort(p: Program, pc: nat, c: Config, u: Evaluated, tmp: seq<Value>, over: nat)
    requires u.Got? && Goes(p, c, Arrived(u, pc, tmp))
    requires Falsey(u.value)
    requires p.fetch(pc) == Some(Decoded(JumpIfFalse(over), pc + 3))
    requires p.fetch(pc + 3 + over) == Some(Decoded(ToBool, pc + 3 + over + 1))
    ensures Goes(p, c, Running(pc + 3 + over + 1, Values(u.env) + tmp + [BoolV(false)], u.globals))
  {
    hide Goes;
    Above(u.env, tmp, u.value);
    GoesOneMore(p, c, Arrived(u, pc, tmp));
    GoesOneMore(p, c, Arrived(u, pc + 3 + over, tmp));
  }

  /** A true left operand is dropped and the right one evaluated. */
  lemma FallThrough(p: Program, c: Config, pc: nat, u: Evaluated, tmp: seq<Value>, over: nat)
    requires u.Got? && !Falsey(u.value) && Goes(p, c, Arrived(u, pc, tmp))
    requires p.fetch(pc) == Some(Decoded(JumpIfFalse(over), pc + 3))
    requires p.fetch(pc + 3) == Some(Decoded(Pop, pc + 4))
    ensures Goes(p, c, Start(pc + 4, u.env, u.globals, tmp))
  {
    hide Goes, Values;
    Above(u.env, tmp, u.value);
    GoesOneMore(p, c, Arrived(u, pc, tmp));
    GoesOneMore(p, c, Arrived(u, pc + 3, tmp));
  }

  lemma {:induction false} SimAnd(
    p: Program, pc: nat, e: Expr, sc: Scope, base: nat, env: Locals, g: Globals, tmp: seq<Value>)
    requires e.And? && Clean(e) && OkE(e, sc) && Agree(sc, env)
    requires Placed(p, pc, GenE(e, sc, base), base, ConstsE(e, sc))
    ensures Simulates(p, pc, e, sc, base, env, g, tmp)
    decreases e, 1
  {
    hide InstrsAt, Goes, PoolAt, Agree, Run, Values, Size, EncodeAll, Encode, Placed, Resolve, Step, Apply, Write, Read;
    var l, r := e.left, e.right;
    var kl, kr := ConstsE(l, sc), ConstsE(r, sc);
    var left, right := GenE(l, sc, base), GenE(r, sc, base + |kl|);
    var over := 1 + Size(right);
    ShortCircuitPlaced(p, pc, left, [JumpIfFalse(over), Pop], right, base, kl, kr);
    SimulateExpr(p, pc, l, sc, base, env, g, tmp);
    var c, u, pc1 := Start(pc, env, g, tmp), Eval(p.arith, l, env, g), pc + Size(left);
    if u.Got? {
      TwoPlaced(p, pc1, JumpIfFalse(over), Pop, base);
      if Falsey(u.value) {
        SimShort(p, pc1, c, u, tmp, over);
      } else {
        FallThrough(p, c, pc1, u, tmp, over);
        SimRight(p, pc1 + 4, e, r, sc, base + |kl|, u.env, u.globals, tmp);
        GoesOn(p, c, Start(pc1 + 4, u.env, u.globals, tmp),
               Arrived(Truth(Eval(p.arith, r, u.env, u.globals)), pc1 + 4 + Size(right) + 1, tmp));
      }
    }
  }

  lemma TwoPlaced(p: Program, pc: nat, i: Instr, j: Instr, base: nat)
    requires Placed(p, pc, [i, j], base, [])
    ensures p.fetch(pc) == Some(Decoded(i, pc + Len(i)))
    ensures p.fetch(pc + Len(i)) == Some(Decoded(j, pc + Len(i) + Len(j)))
    ensures Size([i, j]) == Len(i) + Len(j)
  {
    assert [i, j][1..] == [j];
    assert InstrsAt(p.fetch, pc + Len(i), [j]);
    assert Size([j]) == Len(j);
  }

  /** The two jumps of `or`: a false left operand goes to the right one, a true one is converted. */
  lemma OrJumps(p: Program, c: Config, pc: nat, u: Evaluated, tmp: seq<Value>, over: nat)
    requires u.Got? && Goes(p, c, Arrived(u, pc, tmp))
    requires p.fetch(pc) == Some(Decoded(JumpIfFalse(3), pc + 3))
    requires p.fetch(pc + 3) == Some(Decoded(Jump(over), pc + 6))
    requires p.fetch(pc + 6) == Some(Decoded(Pop, pc + 7))
    requires p.fetch(pc + 6 + over) == Some(Decoded(ToBool, pc + 6 + over + 1))
    ensures Falsey(u.value) ==> Goes(p, c, Start(pc + 7, u.env, u.globals, tmp))
    ensures !Falsey(u.value) ==>
            Goes(p, c, Running(pc + 6 + over + 1, Values(u.env) + tmp + [BoolV(true)], u.globals))
  {
    hide Goes, Values;
    Above(u.env, tmp, u.value);
    GoesOneMore(p, c, Arrived(u, pc, tmp));
    if Falsey(u.value) {
      GoesOneMore(p, c, Arrived(u, pc + 6, tmp));
    } else {
      GoesOneMore(p, c, Arrived(u, pc + 3, tmp));
      GoesOneMore(p, c, Arrived(u, pc + 6 + over, tmp));
    }
  }

  lemma {:induction false} SimOr(
    p: Program, pc: nat, e: Expr, sc: Scope, base: nat, env: Locals, g: Globals, tmp: seq<Value>)
    requires e.Or? && Clean(e) && OkE(e, sc) && Agree(sc, env)
    requires Placed(p, pc, GenE(e, sc, base), base, ConstsE(e, sc))
    ensures Simulates(p, pc, e, sc, base, env, g, tmp)
    decreases e, 1
  {
    hide InstrsAt, Goes, PoolAt, Agree, Run, Values, Size, EncodeAll, Encode, Placed, Resolve, Step, Apply, Write, Read;
    var l, r := e.left, e.right;
    var kl, kr := ConstsE(l, sc), ConstsE(r, sc);
    var left, right := GenE(l, sc, base), GenE(r, sc, base + |kl|);
    var over := 1 + Size(right);
    ShortCircuitPlaced(p, pc, left, [JumpIfFalse(3), Jump(over), Pop], right, base, kl, kr);
    SimulateExpr(p, pc, l, sc, base, env, g, tmp);
    var c, u, pc1 := Start(pc, env, g, tmp), Eval(p.arith, l, env, g), pc + Size(left);
    if u.Got? {
      ThreePlaced(p, pc1, over, base);
      OrJumps(p, c, pc1, u, tmp, over);
      if Falsey(u.value) {
        SimRight(p, pc1 + 7, e, r, sc, base + |kl|, u.env, u.globals, tmp);
        GoesOn(p, c, Start(pc1 + 7, u.env, u.globals, tmp),
               Arrived(Truth(Eval(p.arith, r, u.env, u.globals)), pc1 + 7 + Size(right) + 1, tmp));
      }
    }
  }

  lemma ThreePlaced(p: Program, pc: nat, over: nat, base: nat)
    requires Placed(p, pc, [JumpIfFalse(3), Jump(over), Pop], base, [])
    ensures p.fetch(pc) == Some(Decoded(JumpIfFalse(3), pc + 3))
    ensures p.fetch(pc + 3) == Some(Decoded(Jump(over), pc + 6))
    ensures p.fetch(pc + 6) == Some(Decoded(Pop, pc + 7))
    ensures Size([JumpIfFalse(3), Jump(over), Pop]) == 7
  {
    var ins := [JumpIfFalse(3), Jump(over), Pop];
    assert ins[1..] == [Jump(over), Pop];
    assert InstrsAt(p.fetch, pc + 3, [Jump(over), Pop]);
    TwoPlaced(p, pc + 3, Jump(over), Pop, base);
  }
}
