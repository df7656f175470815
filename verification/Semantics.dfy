/**
  What programs of the fragment mean: a direct interpreter over syntax trees. Locals live
  in an environment searched from its innermost binding outwards, globals in a map.

  Arithmetic is a parameter, so that everything proved holds for doubles with all their
  rounding and for any other interpretation of numbers.
 */
module Semantics {
  import opened Bytecode
  import opened Syntax

  datatype Value =
    | NoneV
    | BoolV(flag: bool)
    | NumV(number: Double)
    | StrV(text: string)

  /** `isZero` and `isZeroInt`: a number is zero, and is zero once it has become a 64-bit integer. */
  datatype Arith = Arith(
    binary: (BinOp, Double, Double) -> Double,
    compare: (BinOp, Double, Double) -> bool,
    negate: Double -> Double,
    isZero: Double -> bool,
    isZeroInt: Double -> bool
  )

  /**
    What ends a program early. `Trap` is no error the machine reports: the remainder of
    integers of which the second is zero ends the process.
   */
  datatype Error =
    | DiffTypes
    | DivByZero
    | Trap
    | UndefErr(name: string)
    | WrongValue

  type Globals = map<string, Value>

  datatype Applied = Result(value: Value) | Error(error: Error)

  predicate Falsey(v: Value) {
    v == NoneV || v == BoolV(false)
  }

  /** jml_value_equal on the values of the fragment; strings are interned. */
  predicate ValueEqual(m: Arith, a: Value, b: Value) {
    if a.NumV? && b.NumV? then m.compare(Equal, a.number, b.number) else a == b
  }

  /** The binary opcodes: what they compute and how they fail. */
  function Apply(m: Arith, op: BinOp, a: Value, b: Value): Applied {
    if op == Equal then Result(BoolV(ValueEqual(m, a, b)))
    else if op == NotEq then Result(BoolV(!ValueEqual(m, a, b)))
    else if op == Concat then
      if a.StrV? && b.StrV? then Result(StrV(a.text + b.text)) else Error(DiffTypes)
    else if op == Contain then Error(WrongValue)
    else if !a.NumV? || !b.NumV? then Error(DiffTypes)
    else if op in {Div, Mod} && m.isZero(b.number) then Error(DivByZero)
    else if op == Mod && m.isZeroInt(b.number) then Error(Trap)
    else if op in {Greater, GreaterEq, Less, LessEq} then Result(BoolV(m.compare(op, a.number, b.number)))
    else Result(NumV(m.binary(op, a.number, b.number)))
  }

  function LiteralValue(l: Literal): Value {
    match l
    case NoneLit => NoneV
    case BoolLit(b) => BoolV(b)
    case NumberLit(n) => NumV(n)
    case StringLit(s) => StrV(s)
  }

  datatype Binding = Binding(name: string, value: Value)

  type Locals = seq<Binding>

  /** The innermost binding of a name, or -1. */
  function Find(env: Locals, x: string): (i: int)
    ensures -1 <= i < |env|
    ensures i >= 0 ==> env[i].name == x
  {
    if env == [] then -1
    else if env[|env| - 1].name == x then |env| - 1
    else Find(env[..|env| - 1], x)
  }

  datatype Evaluated = Got(value: Value, env: Locals, globals: Globals) | Raised(error: Error, globals: Globals)

  function Read(x: string, env: Locals, g: Globals): Applied {
    var i := Find(env, x);
    if i >= 0 then Result(env[i].value)
    else if x in g then Result(g[x])
    else Error(UndefErr(x))
  }

  /** Assignment yields the assigned value; a global must exist already. */
  function Write(x: string, v: Value, env: Locals, g: Globals): Evaluated {
    var i := Find(env, x);
    if i >= 0 then Got(v, env[i := Binding(x, v)], g)
    else if x in g then Got(v, env, g[x := v])
    else Raised(UndefErr(x), g)
  }

  function Eval(m: Arith, e: Expr, env: Locals, g: Globals): (r: Evaluated)
    requires Clean(e)
    ensures r.Got? ==> |r.env| == |env|
  {
    match e
    case Lit(l) => Got(LiteralValue(l), env, g)
    case Var(x) => (match Read(x, env, g) case Result(v) => Got(v, env, g) case Error(err) => Raised(err, g))
    case Assign(x, a) =>
      (match Eval(m, a, env, g)
       case Raised(err, g1) => Raised(err, g1)
       case Got(v, env1, g1) => Write(x, v, env1, g1))
    case Update(x, op, a) =>
      (match Read(x, env, g)
       case Error(err) => Raised(err, g)
       case Result(u) =>
         match Eval(m, a, env, g)
         case Raised(err, g1) => Raised(err, g1)
         case Got(v, env1, g1) =>
           match Apply(m, op, u, v)
           case Error(err) => Raised(err, g1)
           case Result(w) => Write(x, w, env1, g1))
    case NotE(a) =>
      (match Eval(m, a, env, g)
       case Raised(err, g1) => Raised(err, g1)
       case Got(v, env1, g1) => Got(BoolV(Falsey(v)), env1, g1))
    case NegE(a) =>
      (match Eval(m, a, env, g)
       case Raised(err, g1) => Raised(err, g1)
       case Got(v, env1, g1) =>
         if v.NumV? then Got(NumV(m.negate(v.number)), env1, g1) else Raised(DiffTypes, g1))
    case Bin(op, l, r) =>
      (match Eval(m, l, env, g)
       case Raised(err, g1) => Raised(err, g1)
       case Got(u, env1, g1) =>
         match Eval(m, r, env1, g1)
         case Raised(err, g2) => Raised(err, g2)
         case Got(v, env2, g2) =>
           match Apply(m, op, u, v)
           case Error(err) => Raised(err, g2)
           case Result(w) => Got(w, env2, g2))
    case And(l, r) =>
      (match Eval(m, l, env, g)
       case Raised(err, g1) => Raised(err, g1)
       case Got(u, env1, g1) =>
         if Falsey(u) then Got(BoolV(false), env1, g1) else Truth(Eval(m, r, env1, g1)))
    case Or(l, r) =>
      (match Eval(m, l, env, g)
       case Raised(err, g1) => Raised(err, g1)
       case Got(u, env1, g1) =>
         if Falsey(u) then Truth(Eval(m, r, env1, g1)) else Got(BoolV(true), env1, g1))
  }

  /** `and` and `or` yield a truth value. */
  function Truth(r: Evaluated): Evaluated {
    match r
    case Raised(_, _) => r
    case Got(v, env, g) => Got(BoolV(!Falsey(v)), env, g)
  }

  /** How a statement ends; `Timeout` when `fuel` loop rounds were not enough to find out. */
  datatype Outcome =
    | Normal(env: Locals, globals: Globals)
    | Broke(env: Locals, globals: Globals)
    | Skipped(env: Locals, globals: Globals)
    | Failed(error: Error, globals: Globals)
    | Timeout

  /** The locals declared inside a block end with it. */
  function Leave(o: Outcome, n: nat): Outcome {
    match o
    case Normal(env, g) => if n <= |env| then Normal(env[..n], g) else o
    case Broke(env, g) => if n <= |env| then Broke(env[..n], g) else o
    case Skipped(env, g) => if n <= |env| then Skipped(env[..n], g) else o
    case _ => o
  }

  /** `depth` counts the enclosing blocks; at depth 0 `let` defines a global. */
  function Exec(m: Arith, s: Stmt, depth: nat, env: Locals, g: Globals, fuel: nat): (o: Outcome)
    requires CleanS(s)
    decreases fuel, s
  {
    match s
    case Nop => Normal(env, g)
    case Seq(a, b) =>
      (match Exec(m, a, depth, env, g, fuel)
       case Normal(env1, g1) => Exec(m, b, depth, env1, g1, fuel)
       case other => other)
    case ExprS(e) =>
      (match Eval(m, e, env, g)
       case Raised(err, g1) => Failed(err, g1)
       case Got(_, env1, g1) => Normal(env1, g1))
    case LetS(x, e) =>
      (match Eval(m, e, env, g)
       case Raised(err, g1) => Failed(err, g1)
       case Got(v, env1, g1) =>
         if depth == 0 then Normal(env1, g1[x := v]) else Normal(env1 + [Binding(x, v)], g1))
    case IfS(c, y, n) =>
      (match Eval(m, c, env, g)
       case Raised(err, g1) => Failed(err, g1)
       case Got(v, env1, g1) =>
         if Falsey(v) then Exec(m, n, depth, env1, g1, fuel) else Exec(m, y, depth, env1, g1, fuel))
    case WhileS(c, b) =>
      if fuel == 0 then Timeout
      else
        (match Eval(m, c, env, g)
         case Raised(err, g1) => Failed(err, g1)
         case Got(v, env1, g1) =>
           if Falsey(v) then Normal(env1, g1)
           else
             match Exec(m, b, depth, env1, g1, fuel)
             case Normal(env2, g2) => Exec(m, s, depth, env2, g2, fuel - 1)
             case Skipped(env2, g2) => Exec(m, s, depth, env2, g2, fuel - 1)
             case Broke(env2, g2) => Normal(env2, g2)
             case other => other)
    case BreakS => Broke(env, g)
    case SkipS => Skipped(env, g)
    case BlockS(b) => Leave(Exec(m, b, depth + 1, env, g, fuel), |env|)
  }
}
