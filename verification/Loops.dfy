/**
  What compiled loops do: a round is run iff the condition holds, `break` leaves the loop and
  `skip` begins the next round; and in which order operands are evaluated.
 */
module Loops {
  import opened Wrappers
  import opened Bytecode
  import opened Syntax
  import opened Semantics
  import opened CodeGen
  import opened Machine
  import opened Simulation
  import opened Correctness
  import opened ShortPrograms
  import opened Operators

  /** `x = v` and `x = y` as statements. */
  function Set(x: string, v: Literal): Stmt {
    ExprS(Assign(x, Lit(v)))
  }

  function Copy(x: string, y: string): Stmt {
    ExprS(Assign(x, Var(y)))
  }

  /** `while c { x = v; break; x = w }` */
  function Once(c: Literal, x: string, v: Literal, w: Literal): Stmt {
    Seq(WhileS(Lit(c), OnceBody(x, v, w)), Nop)
  }

  function OnceBody(x: string, v: Literal, w: Literal): Stmt {
    Seq(Set(x, v), Seq(BreakS, Seq(Set(x, w), Nop)))
  }

  /** The loop is left by `break`, which nothing behind it changes, or is not entered. */
  lemma BreakEnds(m: Arith, self: Value, g: Globals, c: Literal, x: string, v: Literal, w: Literal)
    requires x != ""
    ensures Ends(Once(c, x, v, w), m, self, g,
      if False(c) then Halted(g)
      else if x in g then Halted(g[x := Denoted(v)])
      else Crashed(UndefErr(x), g))
  {
    hide Goes, Compilable, Exec, False;
    OnceFlat(x, v, w);
    LoopCompilable(Lit(c), OnceBody(x, v, w));
    OnceMeans(m, self, g, c, x, v, w);
    CompilerCorrect(Once(c, x, v, w), m, self, g, 1);
  }

  lemma OnceMeans(m: Arith, self: Value, g: Globals, c: Literal, x: string, v: Literal, w: Literal)
    requires x != ""
    ensures CleanS(Once(c, x, v, w))
    ensures var env := [Binding("", self)];
      Meaning(Once(c, x, v, w), m, self, g, 1) ==
      if False(c) then Normal(env, g) else if x in g then Normal(env, g[x := Denoted(v)]) else Failed(UndefErr(x), g)
  {
    hide Exec, Find, False, Falsey;
    var env, b := [Binding("", self)], OnceBody(x, v, w);
    OnlySelf(self, x);
    TestIsFalse(c);
    OnceFlat(x, v, w);
    SetRuns(m, env, g, x, v, 1);
    Follows(m, Set(x, v), Seq(BreakS, Seq(Set(x, w), Nop)), env, g, 1);
    if x in g {
      var g1 := g[x := Denoted(v)];
      Leaves(m, env, g1, 1);
      Follows(m, BreakS, Seq(Set(x, w), Nop), env, g1, 1);
    }
    assert Eval(m, Lit(c), env, g) == Got(LiteralValue(c), env, g);
    Round(m, Lit(c), b, env, g, 1);
    Last(m, WhileS(Lit(c), b), env, g, 1);
  }

  /** `while x { x = y; y = false; skip; y = true }` */
  function Rounds(x: string, y: string): Stmt {
    Seq(WhileS(Var(x), RoundsBody(x, y)), Nop)
  }

  function RoundsBody(x: string, y: string): Stmt {
    Seq(Copy(x, y), Seq(Set(y, BoolLit(false)), Seq(SkipS, Seq(Set(y, BoolLit(true)), Nop))))
  }

  /** The condition is read again in every round, and `skip` passes over the rest of one. */
  lemma SkipEnds(m: Arith, self: Value, g: Globals, x: string, y: string)
    requires x != "" && y != "" && x != y && x in g && y in g
    ensures Ends(Rounds(x, y), m, self, g,
      if g[x] in {NoneV, BoolV(false)} then Halted(g)
      else Halted(g[y := BoolV(false)][x := if g[y] in {NoneV, BoolV(false)} then g[y] else BoolV(false)]))
  {
    hide Goes, Compilable, Exec;
    RoundsFlat(x, y);
    LoopCompilable(Var(x), RoundsBody(x, y));
    RoundsMean(m, self, g, x, y);
    CompilerCorrect(Rounds(x, y), m, self, g, 3);
  }

  lemma RoundsMean(m: Arith, self: Value, g: Globals, x: string, y: string)
    requires x != "" && y != "" && x != y && x in g && y in g
    ensures CleanS(Rounds(x, y))
    ensures Meaning(Rounds(x, y), m, self, g, 3) == Normal([Binding("", self)],
      if g[x] in {NoneV, BoolV(false)} then g
      else g[y := BoolV(false)][x := if g[y] in {NoneV, BoolV(false)} then g[y] else BoolV(false)])
  {
    hide Exec, Find;
    var env, b := [Binding("", self)], RoundsBody(x, y);
    OnlySelf(self, x);
    var g1 := g[x := g[y]][y := BoolV(false)];
    var g2 := g1[x := BoolV(false)][y := BoolV(false)];
    RoundsFlat(x, y);
    OneRound(m, self, g, x, y, 3);
    OneRound(m, self, g1, x, y, 2);
    OneRound(m, self, g2, x, y, 1);
    assert g1 == g[y := BoolV(false)][x := g[y]];
    assert g2 == g[y := BoolV(false)][x := BoolV(false)];
    Last(m, WhileS(Var(x), b), env, g, 3);
  }

  lemma OneRound(m: Arith, self: Value, g: Globals, x: string, y: string, fuel: nat)
    requires x != "" && y != "" && x != y && x in g && y in g && fuel > 0
    ensures var env, s := [Binding("", self)], WhileS(Var(x), RoundsBody(x, y));
      CleanS(s) && Exec(m, s, 0, env, g, fuel) ==
      if Falsey(g[x]) then Normal(env, g) else Exec(m, s, 0, env, g[x := g[y]][y := BoolV(false)], fuel - 1)
  {
    hide Exec, Find, Falsey;
    var env := [Binding("", self)];
    var no, yes := Set(y, BoolLit(false)), Set(y, BoolLit(true));
    var g1, g2 := g[x := g[y]], g[x := g[y]][y := BoolV(false)];
    OnlySelf(self, x);
    OnlySelf(self, y);
    RoundsFlat(x, y);
    CopyRuns(m, env, g, x, y, fuel);
    SetRuns(m, env, g1, y, BoolLit(false), fuel);
    Leaves(m, env, g2, fuel);
    Follows(m, SkipS, Seq(yes, Nop), env, g2, fuel);
    Follows(m, no, Seq(SkipS, Seq(yes, Nop)), env, g1, fuel);
    Follows(m, Copy(x, y), Seq(no, Seq(SkipS, Seq(yes, Nop))), env, g, fuel);
    assert Eval(m, Var(x), env, g) == Got(g[x], env, g);
    Round(m, Var(x), RoundsBody(x, y), env, g, fuel);
  }

  lemma SetRuns(m: Arith, env: Locals, g: Globals, x: string, v: Literal, fuel: nat)
    requires Find(env, x) == -1
    ensures CleanS(Set(x, v)) && Exec(m, Set(x, v), 0, env, g, fuel) == if x in g then Normal(env, g[x := Denoted(v)]) else Failed(UndefErr(x), g)
  {
    hide Find;
    assert Clean(Lit(v)) && Clean(Assign(x, Lit(v)));
    assert Eval(m, Lit(v), env, g) == Got(Denoted(v), env, g);
  }

  lemma CopyRuns(m: Arith, env: Locals, g: Globals, x: string, y: string, fuel: nat)
    requires Find(env, x) == -1 && Find(env, y) == -1 && x in g && y in g
    ensures CleanS(Copy(x, y)) && Exec(m, Copy(x, y), 0, env, g, fuel) == Normal(env, g[x := g[y]])
  {
    hide Find;
    assert Clean(Var(y)) && Clean(Assign(x, Var(y)));
    assert Eval(m, Var(y), env, g) == Got(g[y], env, g);
  }

  lemma Leaves(m: Arith, env: Locals, g: Globals, fuel: nat)
    ensures Exec(m, BreakS, 0, env, g, fuel) == Broke(env, g) && Exec(m, SkipS, 0, env, g, fuel) == Skipped(env, g)
  {
  }

  lemma Follows(m: Arith, a: Stmt, b: Stmt, env: Locals, g: Globals, fuel: nat)
    requires CleanS(a) && CleanS(b)
    ensures CleanS(Seq(a, b)) && Exec(m, Seq(a, b), 0, env, g, fuel) ==
      match Exec(m, a, 0, env, g, fuel)
      case Normal(env1, g1) => Exec(m, b, 0, env1, g1, fuel)
      case other => other
  {
    hide CleanS;
    assert CleanS(Seq(a, b)) by { CleanPair(a, b); }
  }

  lemma CleanPair(a: Stmt, b: Stmt)
    requires CleanS(a) && CleanS(b)
    ensures CleanS(Seq(a, b))
  {
  }

  lemma Last(m: Arith, s: Stmt, env: Locals, g: Globals, fuel: nat)
    requires CleanS(s)
    ensures CleanS(Seq(s, Nop)) && Exec(m, Seq(s, Nop), 0, env, g, fuel) == Exec(m, s, 0, env, g, fuel)
  {
    hide CleanS;
    CleanPair(s, Nop);
    Follows(m, s, Nop, env, g, fuel);
  }

  lemma Round(m: Arith, c: Expr, b: Stmt, env: Locals, g: Globals, fuel: nat)
    requires Clean(c) && CleanS(b) && fuel > 0 && Eval(m, c, env, g).Got?
    ensures var s, r := WhileS(c, b), Eval(m, c, env, g);
      CleanS(s) && Exec(m, s, 0, env, g, fuel) ==
      if Falsey(r.value) then Normal(r.env, r.globals)
      else
        match Exec(m, b, 0, r.env, r.globals, fuel)
        case Normal(env2, g2) => Exec(m, s, 0, env2, g2, fuel - 1)
        case Skipped(env2, g2) => Exec(m, s, 0, env2, g2, fuel - 1)
        case Broke(env2, g2) => Normal(env2, g2)
        case other => other
  {
    hide Eval, Falsey, Clean;
  }

  /** A list of assignments to globals and of statements that leave a round. */
  predicate Flat(s: Stmt) {
    match s
    case Nop => true
    case Seq(a, b) => FlatItem(a) && Flat(b)
    case _ => false
  }

  predicate FlatItem(s: Stmt) {
    s.BreakS? || s.SkipS? ||
    (s.ExprS? && s.e.Assign? && (s.e.value.Lit? || s.e.value.Var?))
  }

  function Items(s: Stmt): nat {
    if s.Seq? then 1 + Items(s.rest) else 0
  }

  lemma OnceFlat(x: string, v: Literal, w: Literal)
    requires x != ""
    ensures Flat(OnceBody(x, v, w)) && Items(OnceBody(x, v, w)) == 3 && CleanS(OnceBody(x, v, w))
    ensures CleanS(Set(x, v)) && CleanS(Seq(Set(x, w), Nop)) && CleanS(Seq(BreakS, Seq(Set(x, w), Nop)))
  {
    var one := Seq(Set(x, w), Nop);
    assert FlatItem(Set(x, v)) && FlatItem(Set(x, w)) && FlatItem(BreakS);
    assert one.rest == Nop && Items(one) == 1 + Items(Nop) && Flat(one) && Items(one) == 1 && Flat(Seq(BreakS, one)) && Items(Seq(BreakS, one)) == 2;
    FlatClean(one);
    FlatClean(Seq(BreakS, one));
    FlatClean(OnceBody(x, v, w));
  }

  lemma RoundsFlat(x: string, y: string)
    requires x != "" && y != ""
    ensures Flat(RoundsBody(x, y)) && Items(RoundsBody(x, y)) == 4 && CleanS(RoundsBody(x, y))
    ensures var no, one := Set(y, BoolLit(false)), Seq(Set(y, BoolLit(true)), Nop);
      CleanS(Copy(x, y)) && CleanS(no) && CleanS(one) && CleanS(Seq(SkipS, one)) && CleanS(Seq(no, Seq(SkipS, one)))
  {
    var no, one := Set(y, BoolLit(false)), Seq(Set(y, BoolLit(true)), Nop);
    assert FlatItem(no) && FlatItem(one.first) && FlatItem(Copy(x, y)) && FlatItem(SkipS);
    assert one.rest == Nop && Items(one) == 1 + Items(Nop) && Flat(one) && Items(one) == 1 && Flat(Seq(SkipS, one)) && Items(Seq(SkipS, one)) == 2;
    assert Flat(Seq(no, Seq(SkipS, one))) && Items(Seq(no, Seq(SkipS, one))) == 3;
    FlatClean(one);
    FlatClean(Seq(SkipS, one));
    FlatClean(Seq(no, Seq(SkipS, one)));
    FlatClean(RoundsBody(x, y));
  }

  lemma {:induction false} FlatClean(s: Stmt)
    requires Flat(s)
    ensures CleanS(s) && (s.Seq? ==> CleanS(s.first))
  {
    if s.Seq? {
      FlatClean(s.rest);
      if s.first.ExprS? {
        assert Clean(s.first.e.value) && Clean(s.first.e);
      }
    }
  }

  /** What the compiler asks of a body of a loop, and what it leaves as it is. */
  predicate BodyOk(s: Stmt, n: nat) {
    Ok(s, MainScope, 0, true) && Framed(s, 0, 1, Some(1)) && Declared(s, 0) == 0 && After(s, MainScope, 0) == MainScope && Nodes(s) <= 3 * n
  }

  lemma {:induction false} FlatOk(s: Stmt)
    requires Flat(s)
    ensures BodyOk(s, Items(s))
  {
    hide BodyOk;
    if s.Seq? {
      FlatOk(s.rest);
      ItemOk(s.first);
      SeqOk(s.first, s.rest, Items(s.rest));
    } else {
      NopOk();
    }
  }

  lemma NopOk()
    ensures BodyOk(Nop, 0)
  {
  }

  lemma ItemOk(a: Stmt)
    requires FlatItem(a)
    ensures BodyOk(a, 1)
  {
    hide Resolve;
    if a.ExprS? {
      assert OkE(a.e.value, MainScope) && OkE(a.e, MainScope) && NodesE(a.e.value) == 1 && NodesE(a.e) == 2;
    }
  }

  lemma SeqOk(a: Stmt, b: Stmt, n: nat)
    requires BodyOk(a, 1) && BodyOk(b, n)
    ensures BodyOk(Seq(a, b), n + 1)
  {
    hide Ok, Framed, Declared, After, Nodes;
    PairNames(a, b);
    PairFrames(a, b);
    PairCounts(a, b);
  }

  lemma PairNames(a: Stmt, b: Stmt)
    requires Ok(a, MainScope, 0, true) && Ok(b, MainScope, 0, true) && After(a, MainScope, 0) == MainScope
    ensures Ok(Seq(a, b), MainScope, 0, true)
  {
    hide After, OkE, Redeclared;
  }

  lemma PairFrames(a: Stmt, b: Stmt)
    requires Framed(a, 0, 1, Some(1)) && Framed(b, 0, 1, Some(1)) && Declared(a, 0) == 0
    ensures Framed(Seq(a, b), 0, 1, Some(1))
  {
    hide Falls, Declared;
  }

  lemma PairCounts(a: Stmt, b: Stmt)
    ensures Declared(Seq(a, b), 0) == Declared(a, 0) + Declared(b, 0) && Nodes(Seq(a, b)) == Nodes(a) + Nodes(b)
    ensures After(Seq(a, b), MainScope, 0) == After(b, After(a, MainScope, 0), 0)
  {
    hide NodesE;
  }

  /** A loop around such a body is compiled. */
  lemma LoopCompilable(c: Expr, b: Stmt)
    requires (c.Lit? || c.Var?) && Flat(b) && Items(b) <= 10
    ensures Compilable(Seq(WhileS(c, b), Nop))
  {
    hide Flat, Items, Compilable, CleanS, Ok, Nodes, Framed, BodyOk;
    FlatOk(b);
    FlatClean(b);
    WholeLoop(c, b, Items(b));
    ShortCompilable(Seq(WhileS(c, b), Nop));
  }

  lemma WholeLoop(c: Expr, b: Stmt, n: nat)
    requires (c.Lit? || c.Var?) && BodyOk(b, n) && n <= 10 && CleanS(b)
    ensures var s := Seq(WhileS(c, b), Nop);
      CleanS(s) && Ok(s, MainScope, 0, false) && Framed(s, 0, 1, None) && Nodes(s) <= NODES_MAX
  {
    hide Resolve;
    var s := WhileS(c, b);
    assert Clean(c) && OkE(c, MainScope) && NodesE(c) == 1;
    assert CleanS(s) && Ok(s, MainScope, 0, false) && Framed(s, 0, 1, None) && Nodes(s) <= 32;
    assert After(s, MainScope, 0) == MainScope;
    assert Ok(Nop, MainScope, 0, false) && Framed(Nop, 0, 1, None) && Nodes(Nop) == 0;
  }

  /** The left operand is evaluated first. */
  lemma OrderEnds(m: Arith, self: Value, g: Globals, x: string, y: string, a: Double, b: Double)
    requires y != "" && y in g && g[y] == NumV(b)
    ensures Ends(Operators.Program(x, Bin(Sub, Assign(y, Num(a)), Var(y))), m, self, g, Halted(g[y := NumV(a)][x := NumV(m.binary(Sub, a, a))]))
    ensures Ends(Operators.Program(x, Bin(Sub, Var(y), Assign(y, Num(a)))), m, self, g, Halted(g[y := NumV(a)][x := NumV(m.binary(Sub, b, a))]))
  {
    hide Goes, Find, Resolve, Eval;
    var w, u, env := Assign(y, Num(a)), Var(y), [Binding("", self)];
    OnlySelf(self, y);
    OrderMeans(m, env, g, y, a, b);
    assert OkE(Num(a), MainScope) && OkE(w, MainScope) && OkE(u, MainScope);
    assert NodesE(Num(a)) == 1 && NodesE(w) == 2 && NodesE(u) == 1;
    ProgramEnds(m, self, g, x, Bin(Sub, w, u));
    ProgramEnds(m, self, g, x, Bin(Sub, u, w));
  }

  lemma OrderMeans(m: Arith, env: Locals, g: Globals, y: string, a: Double, b: Double)
    requires Find(env, y) == -1 && y in g && g[y] == NumV(b)
    ensures var w, u, g1 := Assign(y, Num(a)), Var(y), g[y := NumV(a)];
      && Clean(w) && Clean(u) && Clean(Bin(Sub, w, u)) && Clean(Bin(Sub, u, w))
      && Eval(m, Bin(Sub, w, u), env, g) == Got(NumV(m.binary(Sub, a, a)), env, g1)
      && Eval(m, Bin(Sub, u, w), env, g) == Got(NumV(m.binary(Sub, b, a)), env, g1)
  {
    hide Find;
    var w, u, g1 := Assign(y, Num(a)), Var(y), g[y := NumV(a)];
    assert Clean(Num(a)) && Clean(w);
    assert Eval(m, Num(a), env, g) == Got(NumV(a), env, g);
    assert Eval(m, w, env, g) == Got(NumV(a), env, g1);
    assert Eval(m, u, env, g) == Got(NumV(b), env, g) && Eval(m, u, env, g1) == Got(NumV(a), env, g1);
  }
}
