/**
  Names of variables: which declarations are accepted, and what an assignment to a variable of
  an enclosing block changes.
 */
module Names {
  import opened Wrappers
  import opened Bytecode
  import opened Syntax
  import opened Semantics
  import opened CodeGen
  import opened Machine
  import opened Correctness
  import opened Simulation
  import opened ShortPrograms
  import opened Operators

  /** `let x` for each of the names, and then something else. */
  function Lets(xs: seq<string>, then_: Stmt): Stmt {
    if xs == [] then then_ else Seq(LetS(xs[0], Lit(NoneLit)), Lets(xs[1..], then_))
  }

  predicate Distinct(xs: seq<string>) {
    forall i, j :: 0 <= i < j < |xs| ==> xs[i] != xs[j]
  }

  function LocalsOf(xs: seq<string>, depth: nat): Scope {
    seq(|xs|, i requires 0 <= i < |xs| => Local(xs[i], depth))
  }

  /**
    A block declares each name once, but any name of the block around it again; there are 255
    variables at the most, and each of them may be read.
   */
  lemma BlocksAccepted(xs: seq<string>, ys: seq<string>)
    ensures Ok(BlockS(Lets(xs, BlockS(Lets(ys, Nop)))), MainScope, 0, false) <==>
      Distinct(xs) && Distinct(ys) && |xs| + |ys| <= 255
  {
    hide Ok, Lets, Distinct;
    var inner := BlockS(Lets(ys, Nop));
    var sc := MainScope + LocalsOf(xs, 1);
    assert MainScope + LocalsOf([], 1) == MainScope && [] + xs == xs && [] + ys == ys && sc + LocalsOf([], 2) == sc;
    NoneDistinct();
    LetsAccepted(MainScope, [], xs, inner, 1);
    BlockOk(Lets(xs, inner), MainScope, 0);
    if |xs| <= 255 {
      LetsAccepted(sc, [], ys, Nop, 2);
      BlockOk(Lets(ys, Nop), sc, 1);
      NopOk(sc + LocalsOf(ys, 2), 2);
    }
  }

  lemma NoneDistinct()
    ensures Distinct([])
  {
  }

  lemma BlockOk(b: Stmt, sc: Scope, depth: nat)
    ensures Ok(BlockS(b), sc, depth, false) == Ok(b, sc, depth + 1, false)
  {
  }

  lemma NopOk(sc: Scope, depth: nat)
    ensures Ok(Nop, sc, depth, false)
  {
  }

  lemma LetOk(x: string, v: Literal, then_: Stmt, sc: Scope, depth: nat)
    requires depth > 0
    ensures Ok(Seq(LetS(x, Lit(v)), then_), sc, depth, false) <==>
      !Redeclared(sc, depth, x) && |sc| < 256 && Ok(then_, sc + [Local(x, depth)], depth, false)
  {
    hide Redeclared;
    var l := LetS(x, Lit(v));
    assert OkE(Lit(v), sc + [Local(x, -1)]);
    assert After(l, sc, depth) == sc + [Local(x, depth)];
  }

  /** Declarations of `xs` behind those of `done` in a block around which there is `sc`. */
  lemma {:induction false} LetsAccepted(sc: Scope, done: seq<string>, xs: seq<string>, then_: Stmt, depth: nat)
    requires depth > 0 && Distinct(done) && |sc| + |done| <= 256
    requires sc != [] && sc[|sc| - 1].depth != -1 && sc[|sc| - 1].depth < depth
    ensures Ok(Lets(xs, then_), sc + LocalsOf(done, depth), depth, false) <==>
      Distinct(done + xs) && |sc| + |done| + |xs| <= 256 && Ok(then_, sc + LocalsOf(done + xs, depth), depth, false)
    decreases |xs|
  {
    hide Redeclared, Ok;
    if xs == [] {
      assert done + xs == done;
    } else {
      var x, more := xs[0], done + [xs[0]];
      var here := sc + LocalsOf(done, depth);
      assert here + [Local(x, depth)] == sc + LocalsOf(more, depth);
      assert more + xs[1..] == done + xs;
      LetOk(x, NoneLit, Lets(xs[1..], then_), here, depth);
      DeclaredIn(sc, done, x, depth);
      OneDistinct(done, x);
      if Distinct(more) && |sc| + |more| <= 256 {
        LetsAccepted(sc, more, xs[1..], then_, depth);
      } else {
        PrefixDistinct(more, xs[1..]);
      }
    }
  }

  lemma OneDistinct(done: seq<string>, x: string)
    ensures Distinct(done + [x]) <==> Distinct(done) && x !in done
  {
    var more := done + [x];
    assert forall i :: 0 <= i < |done| ==> more[i] == done[i];
    assert more[|done|] == x;
  }

  lemma PrefixDistinct(a: seq<string>, b: seq<string>)
    ensures Distinct(a + b) ==> Distinct(a)
  {
    assert forall i :: 0 <= i < |a| ==> (a + b)[i] == a[i];
  }

  lemma {:induction false} DeclaredIn(sc: Scope, done: seq<string>, x: string, depth: nat)
    requires sc != [] && sc[|sc| - 1].depth != -1 && sc[|sc| - 1].depth < depth
    ensures Redeclared(sc + LocalsOf(done, depth), depth, x) <==> x in done
    decreases |done|
  {
    var here := sc + LocalsOf(done, depth);
    if done == [] {
      assert here == sc;
    } else {
      var less := done[..|done| - 1];
      assert here[..|here| - 1] == sc + LocalsOf(less, depth);
      assert done == less + [done[|done| - 1]];
      DeclaredIn(sc, less, x, depth);
    }
  }

  /** Globals are declared as often as one likes. */
  lemma {:induction false} GlobalsAccepted(xs: seq<string>)
    ensures Ok(Lets(xs, Nop), MainScope, 0, false)
    decreases |xs|
  {
    if xs != [] {
      GlobalsAccepted(xs[1..]);
    }
  }

  /** A variable of a block is not read in its own initializer, nor does it stand for one around it there. */
  lemma OwnInitializer(x: string, z: string, v: Literal)
    ensures Ok(BlockS(LetS(x, Var(z))), MainScope, 0, false) <==> x != z
    ensures Ok(BlockS(Seq(LetS(z, Lit(v)), BlockS(LetS(x, Var(z))))), MainScope, 0, false) <==> x != z
  {
    hide Resolve;
    var l, sc := LetS(x, Var(z)), MainScope + [Local(z, 1)];
    Innermost(MainScope, x, z);
    Innermost(sc, x, z);
    LocalMain(z);
    assert !Redeclared(MainScope, 1, x) && !Redeclared(MainScope, 1, z) && !Redeclared(sc, 2, x);
    assert Ok(l, MainScope, 1, false) <==> x != z;
    assert Ok(l, sc, 2, false) <==> x != z;
    assert Ok(BlockS(l), sc, 1, false) <==> x != z;
    assert Ok(LetS(z, Lit(v)), MainScope, 1, false) && After(LetS(z, Lit(v)), MainScope, 1) == sc;
  }

  lemma LocalMain(z: string)
    ensures Resolve(MainScope, z) >= 0 ==> MainScope[Resolve(MainScope, z)].depth == 0
    ensures var sc := MainScope + [Local(z, 1)]; Resolve(sc, z) == 1
  {
  }

  lemma Innermost(sc: Scope, x: string, z: string)
    ensures var more := sc + [Local(x, -1)]; Resolve(more, z) == if x == z then |sc| else Resolve(sc, z)
  {
    assert (sc + [Local(x, -1)])[..|sc|] == sc;
  }

  /** `{ let y = a; { e } x = y }` */
  function Assigning(y: string, a: Double, e: Expr, x: string): Stmt {
    Seq(BlockS(Seq(LetS(y, Num(a)), Seq(BlockS(Seq(ExprS(e), Nop)), Seq(ExprS(Assign(x, Var(y))), Nop)))), Nop)
  }

  lemma AssigningMeans(m: Arith, self: Value, g: Globals, y: string, a: Double, b: Double, op: BinOp, x: string)
    requires y != "" && x != "" && x != y && x in g && op in {Add, Sub, Mul, Pow}
    ensures var s, t := Assigning(y, a, Assign(y, Num(b)), x), Assigning(y, a, Update(y, op, Num(b)), x);
      && CleanS(s) && Meaning(s, m, self, g, 0) == Normal([Binding("", self)], g[x := NumV(b)])
      && CleanS(t) && Meaning(t, m, self, g, 0) == Normal([Binding("", self)], g[x := NumV(m.binary(op, a, b))])
  {
    hide Exec, Eval, Find;
    var env := [Binding("", self)];
    TopName(env, y, NumV(a));
    assert env + [Binding(y, NumV(a))] == [Binding("", self), Binding(y, NumV(a))];
    StoreRuns(m, [Binding("", self), Binding(y, NumV(a))], g, y, a, b, op);
    AssigningRuns(m, self, g, y, a, Assign(y, Num(b)), b, x);
    AssigningRuns(m, self, g, y, a, Update(y, op, Num(b)), m.binary(op, a, b), x);
  }

  /** An assignment in an inner block changes the variable of the outer one, which is read behind it. */
  lemma AssigningEnds(m: Arith, self: Value, g: Globals, y: string, a: Double, b: Double, op: BinOp, x: string)
    requires y != "" && x != "" && x != y && x in g && op in {Add, Sub, Mul, Pow}
    ensures Ends(Assigning(y, a, Assign(y, Num(b)), x), m, self, g, Halted(g[x := NumV(b)]))
    ensures Ends(Assigning(y, a, Update(y, op, Num(b)), x), m, self, g, Halted(g[x := NumV(m.binary(op, a, b))]))
  {
    hide Goes, Compilable, Exec;
    var w, u := Assign(y, Num(b)), Update(y, op, Num(b));
    AssigningMeans(m, self, g, y, a, b, op, x);
    AssigningCompilable(y, a, w, x);
    AssigningCompilable(y, a, u, x);
    CompilerCorrect(Assigning(y, a, w, x), m, self, g, 0);
    CompilerCorrect(Assigning(y, a, u, x), m, self, g, 0);
  }

  lemma AssigningCompilable(y: string, a: Double, e: Expr, x: string)
    requires (e.Assign? || e.Update?) && e.value.Lit? && CleanS(Assigning(y, a, e, x))
    ensures Compilable(Assigning(y, a, e, x))
  {
    hide AllFit, GenProgram, Resolve;
    var sc, i, u := MainScope + [Local(y, 1)], Seq(ExprS(e), Nop), ExprS(Assign(x, Var(y)));
    assert !Redeclared(MainScope, 1, y);
    assert OkE(e.value, sc) && OkE(e, sc) && NodesE(e.value) == 1 && NodesE(e) == 2;
    ExprOk(e, sc, 2);
    BlockOk(i, sc, 1);
    UseOk(x, y, sc, 1);
    AfterBlock(i, Seq(u, Nop), sc, 1);
    LetOk(y, NumberLit(a), Seq(BlockS(i), Seq(u, Nop)), MainScope, 1);
    var whole := Seq(LetS(y, Num(a)), Seq(BlockS(i), Seq(u, Nop)));
    BlockStraight(i, Seq(u, Nop));
    LetStraight(y, a, Seq(BlockS(i), Seq(u, Nop)));
    assert CleanS(BlockS(whole));
    BlockProgram(whole);
  }

  lemma StoreRuns(m: Arith, env: Locals, g: Globals, y: string, a: Double, b: Double, op: BinOp)
    requires op in {Add, Sub, Mul, Pow} && Find(env, y) >= 0 && env[Find(env, y)].value == NumV(a)
    ensures var i, w, u := Find(env, y), Assign(y, Num(b)), Update(y, op, Num(b));
      && Clean(w) && Clean(u)
      && Eval(m, w, env, g) == Got(NumV(b), env[i := Binding(y, NumV(b))], g)
      && Eval(m, u, env, g) == Got(NumV(m.binary(op, a, b)), env[i := Binding(y, NumV(m.binary(op, a, b)))], g)
  {
    hide Find;
    assert Clean(Num(b));
    assert Eval(m, Num(b), env, g) == Got(NumV(b), env, g);
  }

  lemma AssigningRuns(m: Arith, self: Value, g: Globals, y: string, a: Double, e: Expr, c: Double, x: string)
    requires y != "" && x != "" && x != y && x in g && Clean(e)
    requires var env1 := [Binding("", self), Binding(y, NumV(a))];
      Eval(m, e, env1, g) == Got(NumV(c), env1[1 := Binding(y, NumV(c))], g)
    ensures var s := Assigning(y, a, e, x);
      CleanS(s) && Meaning(s, m, self, g, 0) == Normal([Binding("", self)], g[x := NumV(c)])
  {
    hide Exec, Eval, Find;
    var env := [Binding("", self)];
    var env1, env2 := env + [Binding(y, NumV(a))], env + [Binding(y, NumV(c))];
    var g1 := g[x := NumV(c)];
    var l, k, u := LetS(y, Num(a)), Seq(ExprS(e), Nop), ExprS(Assign(x, Var(y)));
    assert env1 == [Binding("", self), Binding(y, NumV(a))] && env1[1 := Binding(y, NumV(c))] == env2;
    assert env2[..|env1|] == env2 && env2[..|env|] == env;
    OnlySelf(self, x);
    OtherName(env, y, NumV(c), x);
    TopName(env, y, NumV(c));
    InnerStore(m, e, env1, g, env2);
    UseEnds(m, 1, env2, g, x, y, NumV(c));
    NopEnds(m, 1, env2, g1);
    SeqEnds(m, u, Nop, 1, env2, g, env2, g1);
    SeqEnds(m, BlockS(k), Seq(u, Nop), 1, env1, g, env2, g);
    LocalEnds(m, 1, env, g, y, a);
    SeqEnds(m, l, Seq(BlockS(k), Seq(u, Nop)), 1, env, g, env1, g);
    BlockEnds(m, Seq(l, Seq(BlockS(k), Seq(u, Nop))), 0, env, g, env2, g1);
    NopEnds(m, 0, env, g1);
    SeqEnds(m, BlockS(Seq(l, Seq(BlockS(k), Seq(u, Nop)))), Nop, 0, env, g, env, g1);
  }

  lemma InnerStore(m: Arith, e: Expr, env1: Locals, g: Globals, env2: Locals)
    requires Clean(e) && |env1| == |env2| && exists w :: Eval(m, e, env1, g) == Got(w, env2, g)
    ensures var b := BlockS(Seq(ExprS(e), Nop)); CleanS(b) && Exec(m, b, 1, env1, g, 0) == Normal(env2, g)
  {
    hide Exec, Eval;
    NopEnds(m, 2, env2, g);
    ExprEnds(m, e, 2, env1, g, env2, g);
    SeqEnds(m, ExprS(e), Nop, 2, env1, g, env2, g);
    BlockLeaves(m, Seq(ExprS(e), Nop), 1, env1, g, env2, g);
  }

  lemma ExprEnds(m: Arith, e: Expr, depth: nat, env: Locals, g: Globals, env1: Locals, g1: Globals)
    requires Clean(e) && exists w :: Eval(m, e, env, g) == Got(w, env1, g1)
    ensures CleanS(ExprS(e)) && Exec(m, ExprS(e), depth, env, g, 0) == Normal(env1, g1)
  {
    hide Eval;
  }

  lemma BlockLeaves(m: Arith, b: Stmt, depth: nat, env: Locals, g: Globals, env1: Locals, g1: Globals)
    requires CleanS(b) && Exec(m, b, depth + 1, env, g, 0) == Normal(env1, g1) && |env| == |env1|
    ensures CleanS(BlockS(b)) && Exec(m, BlockS(b), depth, env, g, 0) == Normal(env1, g1)
  {
    assert env1[..|env|] == env1;
  }

  /** `{ let y = a; { let y = b; x = y }; z = y }` */
  function Shadowing(y: string, a: Double, b: Double, x: string, z: string): Stmt {
    Seq(BlockS(Seq(LetS(y, Num(a)), Seq(BlockS(Inner(y, b, x)), Seq(ExprS(Assign(z, Var(y))), Nop)))), Nop)
  }

  function Inner(y: string, b: Double, x: string): Stmt {
    Seq(LetS(y, Num(b)), Seq(ExprS(Assign(x, Var(y))), Nop))
  }

  lemma ShadowingMeans(m: Arith, self: Value, g: Globals, y: string, a: Double, b: Double, x: string, z: string)
    requires y != "" && x != "" && z != "" && x != y && z != y && x in g && z in g
    ensures var s := Shadowing(y, a, b, x, z);
      CleanS(s) && Meaning(s, m, self, g, 0) == Normal([Binding("", self)], g[x := NumV(b)][z := NumV(a)])
  {
    hide Exec, Find;
    var env := [Binding("", self)];
    var env1 := env + [Binding(y, NumV(a))];
    var env2 := env1 + [Binding(y, NumV(b))];
    var g1, g2 := g[x := NumV(b)], g[x := NumV(b)][z := NumV(a)];
    var l, i, u := LetS(y, Num(a)), BlockS(Inner(y, b, x)), ExprS(Assign(z, Var(y)));
    assert env2[..|env1|] == env1 && env1[..|env|] == env;
    OnlySelf(self, x);
    OnlySelf(self, z);
    OtherName(env, y, NumV(a), x);
    OtherName(env, y, NumV(a), z);
    TopName(env, y, NumV(a));
    InnerEnds(m, env1, g, y, b, x);
    BlockEnds(m, Inner(y, b, x), 1, env1, g, env2, g1);
    UseEnds(m, 1, env1, g1, z, y, NumV(a));
    NopEnds(m, 1, env1, g2);
    SeqEnds(m, u, Nop, 1, env1, g1, env1, g2);
    SeqEnds(m, i, Seq(u, Nop), 1, env1, g, env1, g1);
    LocalEnds(m, 1, env, g, y, a);
    SeqEnds(m, l, Seq(i, Seq(u, Nop)), 1, env, g, env1, g);
    BlockEnds(m, Seq(l, Seq(i, Seq(u, Nop))), 0, env, g, env1, g2);
    NopEnds(m, 0, env, g2);
    SeqEnds(m, BlockS(Seq(l, Seq(i, Seq(u, Nop)))), Nop, 0, env, g, env, g2);
  }

  /** A name stands for the innermost variable, and the outer one is back when the block has ended. */
  lemma ShadowingEnds(m: Arith, self: Value, g: Globals, y: string, a: Double, b: Double, x: string, z: string)
    requires y != "" && x != "" && z != "" && x != y && z != y && x in g && z in g
    ensures Ends(Shadowing(y, a, b, x, z), m, self, g, Halted(g[x := NumV(b)][z := NumV(a)]))
  {
    hide Goes, Compilable, Exec;
    ShadowingMeans(m, self, g, y, a, b, x, z);
    ShadowingCompilable(y, a, b, x, z);
    CompilerCorrect(Shadowing(y, a, b, x, z), m, self, g, 0);
  }

  lemma ShadowingCompilable(y: string, a: Double, b: Double, x: string, z: string)
    requires CleanS(Shadowing(y, a, b, x, z))
    ensures Compilable(Shadowing(y, a, b, x, z))
  {
    hide AllFit, GenProgram, Resolve;
    var sc, more := MainScope + [Local(y, 1)], MainScope + [Local(y, 1)] + [Local(y, 2)];
    var i, u := Inner(y, b, x), ExprS(Assign(z, Var(y)));
    assert !Redeclared(sc, 2, y) && !Redeclared(MainScope, 1, y);
    UseOk(x, y, more, 2);
    LetOk(y, NumberLit(b), Seq(ExprS(Assign(x, Var(y))), Nop), sc, 2);
    BlockOk(i, sc, 1);
    UseOk(z, y, sc, 1);
    AfterBlock(i, Seq(u, Nop), sc, 1);
    LetOk(y, NumberLit(a), Seq(BlockS(i), Seq(u, Nop)), MainScope, 1);
    var whole := Seq(LetS(y, Num(a)), Seq(BlockS(i), Seq(u, Nop)));
    LetStraight(y, b, Seq(ExprS(Assign(x, Var(y))), Nop));
    BlockStraight(i, Seq(u, Nop));
    LetStraight(y, a, Seq(BlockS(i), Seq(u, Nop)));
    assert CleanS(BlockS(whole));
    BlockProgram(whole);
  }

  lemma UseOk(x: string, y: string, sc: Scope, depth: nat)
    requires forall i :: 0 <= i < |sc| ==> sc[i].depth != -1
    ensures var s := Seq(ExprS(Assign(x, Var(y))), Nop); Ok(s, sc, depth, false) && Straight(s) && Nodes(s) == 3
  {
    hide Resolve;
    assert OkE(Var(y), sc) && NodesE(Var(y)) == 1;
    ExprOk(Assign(x, Var(y)), sc, depth);
  }

  lemma ExprOk(e: Expr, sc: Scope, depth: nat)
    requires OkE(e, sc)
    ensures var s := Seq(ExprS(e), Nop); Ok(s, sc, depth, false) && Straight(s) && Nodes(s) == 1 + NodesE(e)
  {
    hide OkE, NodesE;
    assert Ok(ExprS(e), sc, depth, false);
    assert Ok(Nop, sc, depth, false) && Straight(Nop) && Nodes(Nop) == 0;
    assert After(ExprS(e), sc, depth) == sc;
  }

  lemma AfterBlock(b: Stmt, then_: Stmt, sc: Scope, depth: nat)
    ensures Ok(Seq(BlockS(b), then_), sc, depth, false) == (Ok(b, sc, depth + 1, false) && Ok(then_, sc, depth, false))
  {
  }

  /** A short program of one block without branches is compiled if its names are in order. */
  lemma BlockProgram(b: Stmt)
    requires Straight(b) && Nodes(b) < NODES_MAX && Ok(b, MainScope, 1, false) && CleanS(b)
    ensures Compilable(Seq(BlockS(b), Nop))
  {
    hide AllFit, GenProgram, Straight;
    BlockOk(b, MainScope, 0);
    NopOk(MainScope, 0);
    AfterBlock(b, Nop, MainScope, 0);
    assert CleanS(BlockS(b)) && CleanS(Nop);
    StraightFramed(b, 1, 1);
    assert Framed(BlockS(b), 0, 1, None) && Framed(Nop, 0, 1, None);
    ShortCompilable(Seq(BlockS(b), Nop));
  }

  /** No branches, no loops. */
  predicate Straight(s: Stmt) {
    match s
    case Nop => true
    case Seq(a, b) => Straight(a) && Straight(b)
    case ExprS(_) => true
    case LetS(_, _) => true
    case BlockS(b) => Straight(b)
    case _ => false
  }

  lemma BlockStraight(b: Stmt, s: Stmt)
    requires Straight(b) && Straight(s)
    ensures Straight(Seq(BlockS(b), s)) && Nodes(Seq(BlockS(b), s)) == Nodes(b) + Nodes(s)
  {
    hide NodesE;
    assert Straight(BlockS(b)) && Nodes(BlockS(b)) == Nodes(b);
  }

  lemma LetStraight(y: string, a: Double, s: Stmt)
    requires Straight(s)
    ensures Straight(Seq(LetS(y, Num(a)), s)) && Nodes(Seq(LetS(y, Num(a)), s)) == 2 + Nodes(s)
  {
    assert NodesE(Num(a)) == 1 && Nodes(LetS(y, Num(a))) == 2;
  }

  lemma {:induction false} StraightFramed(s: Stmt, depth: nat, n: nat)
    requires Straight(s)
    ensures Framed(s, depth, n, None)
  {
    match s
    case Seq(a, b) => StraightFramed(a, depth, n); StraightFramed(b, depth, n + Declared(a, depth));
    case BlockS(b) => StraightFramed(b, depth + 1, n);
    case _ =>
  }

  lemma InnerEnds(m: Arith, env: Locals, g: Globals, y: string, b: Double, x: string)
    requires x in g && x != y && Find(env, x) == -1
    ensures CleanS(Inner(y, b, x))
    ensures Exec(m, Inner(y, b, x), 2, env, g, 0) == Normal(env + [Binding(y, NumV(b))], g[x := NumV(b)])
  {
    hide Exec, Find;
    var env1, g1, u := env + [Binding(y, NumV(b))], g[x := NumV(b)], ExprS(Assign(x, Var(y)));
    OtherName(env, y, NumV(b), x);
    TopName(env, y, NumV(b));
    UseEnds(m, 2, env1, g, x, y, NumV(b));
    NopEnds(m, 2, env1, g1);
    SeqEnds(m, u, Nop, 2, env1, g, env1, g1);
    LocalEnds(m, 2, env, g, y, b);
    SeqEnds(m, LetS(y, Num(b)), Seq(u, Nop), 2, env, g, env1, g);
  }

  lemma TopName(env: Locals, y: string, v: Value)
    ensures var more := env + [Binding(y, v)]; Find(more, y) == |env| && more[|env|].value == v
  {
  }

  lemma OtherName(env: Locals, y: string, v: Value, x: string)
    requires x != y
    ensures Find(env + [Binding(y, v)], x) == Find(env, x)
  {
    assert (env + [Binding(y, v)])[..|env|] == env;
  }

  lemma NopEnds(m: Arith, depth: nat, env: Locals, g: Globals)
    ensures Exec(m, Nop, depth, env, g, 0) == Normal(env, g)
  {
  }

  lemma SeqEnds(m: Arith, a: Stmt, b: Stmt, depth: nat, env: Locals, g: Globals, env1: Locals, g1: Globals)
    requires CleanS(a) && CleanS(b) && Exec(m, a, depth, env, g, 0) == Normal(env1, g1)
    ensures CleanS(Seq(a, b)) && Exec(m, Seq(a, b), depth, env, g, 0) == Exec(m, b, depth, env1, g1, 0)
  {
  }

  lemma BlockEnds(m: Arith, b: Stmt, depth: nat, env: Locals, g: Globals, env1: Locals, g1: Globals)
    requires CleanS(b) && Exec(m, b, depth + 1, env, g, 0) == Normal(env1, g1) && |env| <= |env1| && env1[..|env|] == env
    ensures Exec(m, BlockS(b), depth, env, g, 0) == Normal(env, g1)
  {
  }

  lemma LocalEnds(m: Arith, depth: nat, env: Locals, g: Globals, y: string, a: Double)
    requires depth > 0
    ensures Exec(m, LetS(y, Num(a)), depth, env, g, 0) == Normal(env + [Binding(y, NumV(a))], g)
  {
    assert Eval(m, Num(a), env, g) == Got(NumV(a), env, g);
  }

  lemma UseEnds(m: Arith, depth: nat, env: Locals, g: Globals, x: string, y: string, v: Value)
    requires x in g && Find(env, x) == -1 && Find(env, y) >= 0 && env[Find(env, y)].value == v
    ensures CleanS(ExprS(Assign(x, Var(y))))
    ensures Exec(m, ExprS(Assign(x, Var(y))), depth, env, g, 0) == Normal(env, g[x := v])
  {
    hide Find;
    var e := Assign(x, Var(y));
    assert Clean(Var(y)) && Clean(e);
    assert Eval(m, Var(y), env, g) == Got(v, env, g);
  }
}
