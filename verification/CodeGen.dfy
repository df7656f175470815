/**
  The code of a syntax tree: for every construct, the instructions the compiler emits,
  the constants it adds and the locals it knows afterwards.
 */
module CodeGen {
  import opened Wrappers
  import opened Bytecode
  import opened Syntax
  import opened Semantics

  const LOCAL_MAX: nat := 256

  /** A local of the function being compiled; depth -1 while its initializer is compiled. */
  datatype Local = Local(name: string, depth: int)

  type Scope = seq<Local>

  /** jml_local_resolve: the slot of the innermost local of that name, or -1. */
  function Resolve(sc: Scope, x: string): (i: int)
    ensures -1 <= i < |sc|
    ensures i >= 0 ==> sc[i].name == x
  {
    if sc == [] then -1
    else if sc[|sc| - 1].name == x then |sc| - 1
    else Resolve(sc[..|sc| - 1], x)
  }

  /** The constants an expression adds to the pool, in order. */
  function ConstsE(e: Expr, sc: Scope): seq<Value> {
    match e
    case Lit(l) => if l.NumberLit? || l.StringLit? then [LiteralValue(l)] else []
    case Var(x) => NameConst(x, sc)
    case Assign(x, v) => NameConst(x, sc) + ConstsE(v, sc)
    case Update(x, _, v) => NameConst(x, sc) + ConstsE(v, sc)
    case NotE(a) => ConstsE(a, sc)
    case NegE(a) => ConstsE(a, sc)
    case Bin(_, l, r) => ConstsE(l, sc) + ConstsE(r, sc)
    case And(l, r) => ConstsE(l, sc) + ConstsE(r, sc)
    case Or(l, r) => ConstsE(l, sc) + ConstsE(r, sc)
    case Lost(l, r) => ConstsE(l, sc) + ConstsE(r, sc)
  }

  /** A name that is no local is looked up by name at run time. */
  function NameConst(x: string, sc: Scope): seq<Value> {
    if Resolve(sc, x) >= 0 then [] else [StrV(x)]
  }

  function GetVar(x: string, sc: Scope, base: nat): Instr {
    if Resolve(sc, x) >= 0 then GetLocal(Resolve(sc, x)) else GetGlobal(0, base)
  }

  function SetVar(x: string, sc: Scope, base: nat): Instr {
    if Resolve(sc, x) >= 0 then SetLocal(Resolve(sc, x)) else SetGlobal(0, base)
  }

  function GenLiteral(l: Literal, base: nat): Instr {
    match l
    case NoneLit => PushNone
    case BoolLit(b) => if b then PushTrue else PushFalse
    case NumberLit(_) => Const(base)
    case StringLit(_) => Const(base)
  }

  /** The code of an expression when the pool holds `base` constants. */
  function GenE(e: Expr, sc: Scope, base: nat): seq<Instr> {
    match e
    case Lit(l) => [GenLiteral(l, base)]
    case Var(x) => [GetVar(x, sc, base)]
    case Assign(x, v) => GenE(v, sc, base + |NameConst(x, sc)|) + [SetVar(x, sc, base)]
    case Update(x, op, v) =>
      [GetVar(x, sc, base)] + GenE(v, sc, base + |NameConst(x, sc)|) + [Binary(op)] + [SetVar(x, sc, base)]
    case NotE(a) => GenE(a, sc, base) + [Not]
    case NegE(a) => GenE(a, sc, base) + [Neg]
    case Bin(op, l, r) => GenE(l, sc, base) + GenE(r, sc, base + |ConstsE(l, sc)|) + [Binary(op)]
    case And(l, r) =>
      var right := GenE(r, sc, base + |ConstsE(l, sc)|);
      GenE(l, sc, base) + [JumpIfFalse(1 + Size(right)), Pop] + right + [ToBool]
    case Or(l, r) =>
      var right := GenE(r, sc, base + |ConstsE(l, sc)|);
      GenE(l, sc, base) + [JumpIfFalse(3), Jump(1 + Size(right)), Pop] + right + [ToBool]
    case Lost(l, r) => GenE(l, sc, base) + GenE(r, sc, base + |ConstsE(l, sc)|)
  }

  /** No local is read or written in its own initializer. */
  predicate OkE(e: Expr, sc: Scope) {
    match e
    case Lit(_) => true
    case Var(x) => OkName(x, sc)
    case Assign(x, v) => OkName(x, sc) && OkE(v, sc)
    case Update(x, _, v) => OkName(x, sc) && OkE(v, sc)
    case NotE(a) => OkE(a, sc)
    case NegE(a) => OkE(a, sc)
    case Bin(_, l, r) => OkE(l, sc) && OkE(r, sc)
    case And(l, r) => OkE(l, sc) && OkE(r, sc)
    case Or(l, r) => OkE(l, sc) && OkE(r, sc)
    case Lost(l, r) => OkE(l, sc) && OkE(r, sc)
  }

  predicate OkName(x: string, sc: Scope) {
    Resolve(sc, x) >= 0 ==> sc[Resolve(sc, x)].depth != -1
  }

  /** jml_variable_declaration: whether a local of that name exists in the innermost scope. */
  predicate Redeclared(sc: Scope, depth: nat, x: string) {
    sc != [] &&
    var last := sc[|sc| - 1];
    !(last.depth != -1 && last.depth < depth) && (last.name == x || Redeclared(sc[..|sc| - 1], depth, x))
  }

  /** Turns the holes of a loop body into jumps to the position `dist` bytes behind its start. */
  function Patch(ins: seq<Instr>, dist: int): (r: seq<Instr>)
    ensures |r| == |ins|
  {
    if ins == [] then []
    else
      [Fill(ins[0], dist)] + Patch(ins[1..], dist - Len(ins[0]))
  }

  function Fill(i: Instr, dist: int): (r: Instr)
    ensures r != BreakHole && Len(r) == Len(i)
    ensures i != BreakHole ==> r == i
  {
    if i == BreakHole then Jump(dist - 3) else i
  }

  lemma {:induction false} PatchSize(ins: seq<Instr>, dist: int)
    ensures Size(Patch(ins, dist)) == Size(ins)
    ensures NoHoles(Patch(ins, dist))
  {
    hide Fill, Len, Encode, EncodeAll;
    if ins != [] {
      var rest := Patch(ins[1..], dist - Len(ins[0]));
      PatchSize(ins[1..], dist - Len(ins[0]));
      assert Patch(ins, dist) == [Fill(ins[0], dist)] + rest && Patch(ins, dist)[1..] == rest;
    }
  }

  lemma {:induction false} PatchAppend(a: seq<Instr>, b: seq<Instr>, dist: int)
    ensures Patch(a + b, dist) == Patch(a, dist) + Patch(b, dist - Size(a))
  {
    hide Patch, Fill, Len, Encode, EncodeAll;
    if a == [] {
      assert a + b == b;
      PatchNil(dist);
    } else {
      var i, tail, d := a[0], a[1..], dist - Len(a[0]);
      PatchAppend(tail, b, d);
      PatchCons(i, tail + b, dist);
      PatchCons(i, tail, dist);
      assert a == [i] + tail && a + b == [i] + (tail + b);
    }
  }

  lemma PatchNil(dist: int)
    ensures Patch([], dist) == []
  {
  }

  lemma PatchCons(i: Instr, ins: seq<Instr>, dist: int)
    ensures Patch([i] + ins, dist) == [Fill(i, dist)] + Patch(ins, dist - Len(i))
  {
    assert ([i] + ins)[1..] == ins;
  }

  lemma {:induction false} PatchNothing(ins: seq<Instr>, dist: int)
    requires NoHoles(ins)
    ensures Patch(ins, dist) == ins
  {
    if ins != [] {
      PatchNothing(ins[1..], dist - Len(ins[0]));
    }
  }

  /** The locals known after a statement. */
  function After(s: Stmt, sc: Scope, depth: nat): Scope {
    match s
    case Seq(a, b) => After(b, After(a, sc, depth), depth)
    case LetS(x, _) => if depth == 0 then sc else sc + [Local(x, depth)]
    case IfS(_, y, n) => After(n, After(y, sc, depth), depth)
    case WhileS(_, b) => After(b, sc, depth)
    case _ => sc
  }

  /** The number of locals a statement leaves declared in its own scope. */
  function Declared(s: Stmt, depth: nat): nat {
    match s
    case Seq(a, b) => Declared(a, depth) + Declared(b, depth)
    case LetS(_, _) => if depth == 0 then 0 else 1
    case IfS(_, y, n) => Declared(y, depth) + Declared(n, depth)
    case WhileS(_, b) => Declared(b, depth)
    case _ => 0
  }

  lemma {:induction false} AfterExtends(s: Stmt, sc: Scope, depth: nat)
    ensures |After(s, sc, depth)| == |sc| + Declared(s, depth)
    ensures sc <= After(s, sc, depth)
  {
    match s
    case Seq(a, b) => AfterExtends(a, sc, depth); AfterExtends(b, After(a, sc, depth), depth);
    case IfS(_, y, n) => AfterExtends(y, sc, depth); AfterExtends(n, After(y, sc, depth), depth);
    case WhileS(_, b) => AfterExtends(b, sc, depth);
    case _ =>
  }

  function Consts(s: Stmt, sc: Scope, depth: nat): seq<Value> {
    match s
    case Seq(a, b) => Consts(a, sc, depth) + Consts(b, After(a, sc, depth), depth)
    case ExprS(e) => ConstsE(e, sc)
    case LetS(x, e) =>
      if depth == 0 then [StrV(x)] + ConstsE(e, sc) else ConstsE(e, sc + [Local(x, -1)])
    case IfS(c, y, n) =>
      ConstsE(c, sc) + Consts(y, sc, depth) + Consts(n, After(y, sc, depth), depth)
    case WhileS(c, b) => ConstsE(c, sc) + Consts(b, sc, depth)
    case BlockS(b) => Consts(b, sc, depth + 1)
    case _ => []
  }

  function Pops(n: nat): seq<Instr> {
    if n == 0 then [] else [Pop] + Pops(n - 1)
  }

  /** The code between the condition of an `if` and its end. */
  function Branches(yes: seq<Instr>, no: seq<Instr>): seq<Instr> {
    [JumpIfFalse(Size(yes) + 4), Pop] + (yes + ([Jump(1 + Size(no)), Pop] + no))
  }

  /** The code of a loop whose condition and body are compiled, its breaks resolved. */
  function Looped(cond: seq<Instr>, body: seq<Instr>): seq<Instr> {
    cond + ([JumpIfFalse(Size(body) + 4), Pop] +
            (Patch(body, Size(body) + 4) + [Loop(Size(cond) + Size(body) + 7), Pop]))
  }

  /** How far a position has moved away from the start of the enclosing loop. */
  function Further(back: Option<nat>, n: nat): Option<nat> {
    match back case None => None case Some(d) => Some(d + n)
  }

  /**
    The code of a statement `back` bytes behind the start of the innermost loop, holes
    standing for the breaks of that loop.
   */
  function Gen(s: Stmt, sc: Scope, depth: nat, base: nat, back: Option<nat>): seq<Instr> {
    match s
    case Nop => []
    case Seq(a, b) =>
      var first := Gen(a, sc, depth, base, back);
      first + Gen(b, After(a, sc, depth), depth, base + |Consts(a, sc, depth)|, Further(back, Size(first)))
    case ExprS(e) => GenE(e, sc, base) + [Pop]
    case LetS(x, e) =>
      if depth == 0 then GenE(e, sc, base + 1) + [DefGlobal(0, base)] else GenE(e, sc + [Local(x, -1)], base)
    case IfS(c, y, n) =>
      var cond := GenE(c, sc, base);
      var base1 := base + |ConstsE(c, sc)|;
      var yes := Gen(y, sc, depth, base1, Further(back, Size(cond) + 4));
      var no := Gen(n, After(y, sc, depth), depth, base1 + |Consts(y, sc, depth)|,
                    Further(back, Size(cond) + 4 + Size(yes) + 4));
      cond + Branches(yes, no)
    case WhileS(c, b) =>
      var cond := GenE(c, sc, base);
      Looped(cond, Gen(b, sc, depth, base + |ConstsE(c, sc)|, Some(Size(cond) + 4)))
    case BreakS => [BreakHole]
    case SkipS => (match back case Some(d) => [Loop(d + 3)] case None => [])
    case BlockS(b) => Gen(b, sc, depth + 1, base, back) + Pops(Declared(b, depth + 1))
  }

  lemma SeqGen(a: Stmt, b: Stmt, sc: Scope, depth: nat, base: nat, back: Option<nat>)
    ensures var first, sc1, k := Gen(a, sc, depth, base, back), After(a, sc, depth), Consts(a, sc, depth);
            && Gen(Seq(a, b), sc, depth, base, back) ==
               first + Gen(b, sc1, depth, base + |k|, Further(back, Size(first)))
            && After(Seq(a, b), sc, depth) == After(b, sc1, depth)
            && Consts(Seq(a, b), sc, depth) == k + Consts(b, sc1, depth)
  {
    hide GenE, ConstsE, Size, EncodeAll, Patch, Looped, Pops, Branches, Declared, Further;
  }

  /** The compiler has nothing to object to: names, declarations and loop statements. */
  predicate Ok(s: Stmt, sc: Scope, depth: nat, inLoop: bool) {
    match s
    case Nop => true
    case Seq(a, b) => Ok(a, sc, depth, inLoop) && Ok(b, After(a, sc, depth), depth, inLoop)
    case ExprS(e) => OkE(e, sc)
    case LetS(x, e) =>
      if depth == 0 then OkE(e, sc)
      else !Redeclared(sc, depth, x) && |sc| < LOCAL_MAX && OkE(e, sc + [Local(x, -1)])
    case IfS(c, y, n) =>
      OkE(c, sc) && Ok(y, sc, depth, inLoop) && Ok(n, After(y, sc, depth), depth, inLoop)
    case WhileS(c, b) => OkE(c, sc) && Ok(b, sc, depth, true)
    case BreakS => inLoop
    case SkipS => inLoop
    case BlockS(b) => Ok(b, sc, depth + 1, inLoop)
  }

  /** Control can come out at the end of a statement. */
  predicate Falls(s: Stmt) {
    match s
    case Seq(a, b) => Falls(a) && Falls(b)
    case IfS(_, y, n) => Falls(y) || Falls(n)
    case BreakS => false
    case SkipS => false
    case BlockS(b) => Falls(b)
    case _ => true
  }

  /**
    The stack can be predicted: on every way through a statement, what has been declared is
    what has been pushed. Loop bodies and first branches declare no locals of the enclosing
    scope, nor do second branches that are not the only way on; `break` and `skip` are met
    with the locals the loop started with. What cannot be reached does not matter. `n` counts
    the locals at the statement, `loopN` those at the start of the loop.
   */
  predicate Framed(s: Stmt, depth: nat, n: nat, loopN: Option<nat>) {
    match s
    case Seq(a, b) => Framed(a, depth, n, loopN) && (Falls(a) ==> Framed(b, depth, n + Declared(a, depth), loopN))
    case IfS(_, y, no) =>
      && Declared(y, depth) == 0 && (Falls(y) ==> Declared(no, depth) == 0)
      && Framed(y, depth, n, loopN) && Framed(no, depth, n, loopN)
    case WhileS(_, b) => Declared(b, depth) == 0 && Framed(b, depth, n, Some(n))
    case BreakS => loopN == Some(n)
    case SkipS => loopN == Some(n)
    case BlockS(b) => Framed(b, depth + 1, n, loopN)
    case _ => true
  }

  /** The scope of the main program: only the slot of the function itself. */
  const MainScope: Scope := [Local("", 0)]

  /** The whole code of a main program. */
  function GenProgram(s: Stmt): seq<Instr> {
    Gen(s, MainScope, 0, 1, None) + [PushNone, Return, End]
  }

  /** Its constants; the first one is the module, which a main program does not have. */
  function ConstsProgram(s: Stmt): seq<Value> {
    [NoneV] + Consts(s, MainScope, 0)
  }
}
