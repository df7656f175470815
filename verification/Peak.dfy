/**
  How high the stack of a compiled program gets. The bound can be read off the program, and
  where it stays below the greatest size of the stack, running it on the limited stack is
  running it on an unlimited one.
 */
module Peak {
  import opened Wrappers
  import opened Bytecode
  import opened Syntax
  import opened Semantics
  import opened CodeGen
  import opened Machine
  import opened Simulation
  import opened Execution
  import opened Correctness
  import opened Heights
  import CellMachine

  /** The greatest height at which the stack need not be enlarged beyond its greatest size. */
  const HEIGHT_LIMIT: nat := 16383

  function Max(a: nat, b: nat): nat {
    if a < b then b else a
  }

  /** How many values an expression has on the stack at the most, its own one included. */
  function Width(e: Expr): (n: nat)
    ensures n >= 1
  {
    match e
    case Lit(_) => 1
    case Var(_) => 1
    case Assign(_, v) => Width(v)
    case Update(_, _, v) => 1 + Width(v)
    case NotE(a) => Width(a)
    case NegE(a) => Width(a)
    case Bin(_, l, r) => Max(Width(l), 1 + Width(r))
    case And(l, r) => Max(Width(l), Width(r))
    case Or(l, r) => Max(Width(l), Width(r))
    case Lost(l, r) => Max(Width(l), 1 + Width(r))
  }

  /** How high the stack gets in a statement that finds `n` locals on it. */
  function Height(s: Stmt, depth: nat, n: nat): (h: nat)
    ensures h >= n
  {
    match s
    case Seq(a, b) => Max(Height(a, depth, n), Height(b, depth, n + Declared(a, depth)))
    case ExprS(e) => n + Width(e)
    case LetS(_, e) => n + Width(e)
    case IfS(c, y, no) => Max(n + Width(c), Max(Height(y, depth, n), Height(no, depth, n + Declared(y, depth))))
    case WhileS(c, b) => Max(n + Width(c), Height(b, depth, n))
    case BlockS(b) => Height(b, depth + 1, n)
    case _ => n
  }

  /** The widest expression of a statement. */
  function Widest(s: Stmt): nat {
    match s
    case Seq(a, b) => Max(Widest(a), Widest(b))
    case ExprS(e) => Width(e)
    case LetS(_, e) => Width(e)
    case IfS(c, y, no) => Max(Width(c), Max(Widest(y), Widest(no)))
    case WhileS(c, b) => Max(Width(c), Widest(b))
    case BlockS(b) => Widest(b)
    case _ => 0
  }

  /** The height of a whole program, the function in slot 0 and the value it returns included. */
  function ProgramHeight(s: Stmt): nat {
    Max(2, Height(s, 0, 1))
  }

  lemma {:induction false} HeightCovers(s: Stmt, depth: nat, n: nat)
    ensures Height(s, depth, n) >= n + Declared(s, depth)
  {
    match s
    case Seq(a, b) => HeightCovers(a, depth, n); HeightCovers(b, depth, n + Declared(a, depth));
    case IfS(_, y, no) => HeightCovers(y, depth, n); HeightCovers(no, depth, n + Declared(y, depth));
    case WhileS(_, b) => HeightCovers(b, depth, n);
    case _ =>
  }

  /** The locals are at most 256, so that only the expressions matter. */
  lemma {:induction false} HeightBounded(s: Stmt, sc: Scope, depth: nat, inLoop: bool)
    requires Ok(s, sc, depth, inLoop) && |sc| <= LOCAL_MAX
    ensures Height(s, depth, |sc|) <= LOCAL_MAX + Widest(s) && |After(s, sc, depth)| <= LOCAL_MAX
    decreases s
  {
    hide OkE, Redeclared, Width, Resolve;
    match s
    case Seq(a, b) =>
      HeightBounded(a, sc, depth, inLoop);
      AfterExtends(a, sc, depth);
      HeightBounded(b, After(a, sc, depth), depth, inLoop);
    case IfS(_, y, no) =>
      HeightBounded(y, sc, depth, inLoop);
      AfterExtends(y, sc, depth);
      HeightBounded(no, After(y, sc, depth), depth, inLoop);
    case WhileS(_, b) => HeightBounded(b, sc, depth, true);
    case BlockS(b) => HeightBounded(b, sc, depth + 1, inLoop);
    case _ =>
  }

  lemma ProgramBounded(s: Stmt)
    requires Accepted(s)
    ensures ProgramHeight(s) <= LOCAL_MAX + Widest(s)
  {
    hide Height, Widest, AllFit, CleanS, Ok;
    HeightBounded(s, MainScope, 0, false);
  }

  lemma {:induction false} InsideE(e: Expr, sc: Scope, base: nat, pc: int, h: int, q: Point)
    requires InE(e, sc, base, pc, h, q)
    ensures q.height <= h + Width(e)
    decreases e
  {
    hide SizeE, Base2;
    var base2 := Base2(e, sc, base);
    match e
    case Assign(x, v) =>
      if InE(v, sc, base2, pc, h, q) {
        InsideE(v, sc, base2, pc, h, q);
      }
    case Update(x, op, v) =>
      var k := Len(GetVar(x, sc, base));
      if InE(v, sc, base2, pc + k, h + 1, q) {
        InsideE(v, sc, base2, pc + k, h + 1, q);
      }
    case NotE(a) =>
      if InE(a, sc, base, pc, h, q) {
        InsideE(a, sc, base, pc, h, q);
      }
    case NegE(a) =>
      if InE(a, sc, base, pc, h, q) {
        InsideE(a, sc, base, pc, h, q);
      }
    case Bin(_, l, r) =>
      var m := SizeE(l, sc, base);
      if InE(l, sc, base, pc, h, q) {
        InsideE(l, sc, base, pc, h, q);
      } else if InE(r, sc, base2, pc + m, h + 1, q) {
        InsideE(r, sc, base2, pc + m, h + 1, q);
      }
    case And(l, r) =>
      var m := SizeE(l, sc, base);
      if InE(l, sc, base, pc, h, q) {
        InsideE(l, sc, base, pc, h, q);
      } else if InE(r, sc, base2, pc + m + 4, h, q) {
        InsideE(r, sc, base2, pc + m + 4, h, q);
      }
    case Or(l, r) =>
      var m := SizeE(l, sc, base);
      if InE(l, sc, base, pc, h, q) {
        InsideE(l, sc, base, pc, h, q);
      } else if InE(r, sc, base2, pc + m + 7, h, q) {
        InsideE(r, sc, base2, pc + m + 7, h, q);
      }
    case _ =>
  }

  lemma {:induction false} InsideS(s: Stmt, t: Site, pc: nat, q: Point)
    requires In(s, t, pc, q)
    ensures q.height <= Height(s, t.depth, |t.sc|)
    decreases s
  {
    hide In, InE, SizeE, SizeS, Falls, Declared, After, YesSite, NoSite, BodySite, NextSite;
    match s
    case Seq(a, b) =>
      InSeq(s, t, pc, q);
      if In(a, t, pc, q) {
        InsideS(a, t, pc, q);
      } else {
        var t1 := NextSite(a, t, SizeS(a, t));
        Counted(s, t);
        InsideS(b, t1, pc + SizeS(a, t), q);
      }
    case ExprS(e) => InsideExpr(e, t, pc, q);
    case LetS(x, e) => InsideLet(s, t, pc, q);
    case IfS(c, y, no) =>
      var m, k := SizeE(c, t.sc, t.base), SizeS(y, YesSite(s, t));
      InIf(s, t, pc, q);
      CountedIf(s, t);
      if InE(c, t.sc, t.base, pc, |t.sc|, q) {
        InsideE(c, t.sc, t.base, pc, |t.sc|, q);
      } else if In(y, YesSite(s, t), pc + m + 4, q) {
        InsideS(y, YesSite(s, t), pc + m + 4, q);
      } else if In(no, NoSite(s, t), pc + m + 8 + k, q) {
        InsideS(no, NoSite(s, t), pc + m + 8 + k, q);
      }
    case WhileS(c, b) =>
      InWhile(s, t, pc, q);
      CountedWhile(s, t, pc);
      if InE(c, t.sc, t.base, pc, |t.sc|, q) {
        InsideE(c, t.sc, t.base, pc, |t.sc|, q);
      } else if In(b, BodySite(s, t, pc), pc + SizeE(c, t.sc, t.base) + 4, q) {
        InsideS(b, BodySite(s, t, pc), pc + SizeE(c, t.sc, t.base) + 4, q);
      }
    case BlockS(b) =>
      var tb := t.(depth := t.depth + 1);
      InBlock(s, t, pc, q);
      HeightCovers(b, t.depth + 1, |t.sc|);
      if In(b, tb, pc, q) {
        InsideS(b, tb, pc, q);
      }
    case _ => InPlain(s, t, pc, q);
  }

  lemma Counted(s: Stmt, t: Site)
    requires s.Seq?
    ensures var t1 := NextSite(s.first, t, SizeS(s.first, t));
      t1.depth == t.depth && |t1.sc| == |t.sc| + Declared(s.first, t.depth)
  {
    hide After, Declared, SizeS, Consts;
    AfterExtends(s.first, t.sc, t.depth);
  }

  lemma CountedIf(s: Stmt, t: Site)
    requires s.IfS?
    ensures YesSite(s, t).depth == NoSite(s, t).depth == t.depth && YesSite(s, t).sc == t.sc
    ensures |NoSite(s, t).sc| == |t.sc| + Declared(s.yes, t.depth)
  {
    hide After, Declared, SizeS, Consts, ConstsE, CondCode, Code;
    AfterExtends(s.yes, t.sc, t.depth);
  }

  lemma CountedWhile(s: Stmt, t: Site, pc: nat)
    requires s.WhileS?
    ensures BodySite(s, t, pc).depth == t.depth && BodySite(s, t, pc).sc == t.sc
  {
    hide ConstsE, CondCode, Gen;
  }

  lemma InsideExpr(e: Expr, t: Site, pc: nat, q: Point)
    requires In(ExprS(e), t, pc, q)
    ensures q.height <= |t.sc| + Width(e)
  {
    hide InE, SizeE;
    if InE(e, t.sc, t.base, pc, |t.sc|, q) {
      InsideE(e, t.sc, t.base, pc, |t.sc|, q);
    }
  }

  lemma InsideLet(s: Stmt, t: Site, pc: nat, q: Point)
    requires s.LetS? && In(s, t, pc, q)
    ensures q.height <= |t.sc| + Width(s.init)
  {
    hide InE, SizeE;
    if InE(s.init, InitScope(s, t), InitBase(t), pc, |t.sc|, q) {
      InsideE(s.init, InitScope(s, t), InitBase(t), pc, |t.sc|, q);
    }
  }

  /** No path through a framed program gets higher. */
  lemma PathsStayLow(s: Stmt, q: Point)
    requires Accepted(s) && Framed(s, 0, 1, None) && Leads(Fetched(s), START, q)
    ensures q.height <= ProgramHeight(s)
  {
    hide Accepted, In, SizeS, Fetched, Framed, Leads, Height, Declared, After;
    FramedReaches(s, q);
    HeightCovers(s, 0, 1);
    AfterExtends(s, MainScope, 0);
    TopLevel(s);
    if In(s, MainSite, 0, q) {
      InsideS(s, MainSite, 0, q);
    }
  }

  /** At top level `let` defines globals. */
  lemma {:induction false} TopLevel(s: Stmt)
    ensures Declared(s, 0) == 0
  {
    match s
    case Seq(a, b) => TopLevel(a); TopLevel(b);
    case IfS(_, y, no) => TopLevel(y); TopLevel(no);
    case WhileS(_, b) => TopLevel(b);
    case _ =>
  }

  /** A run that fails to go on when the stack gets higher than `limit`. */
  function RunWithin(p: Program, c: Config, n: nat, limit: nat): Option<Config>
    decreases n
  {
    if c.Running? && |c.stack| > limit then None
    else if n == 0 then Some(c)
    else RunWithin(p, Step(p, c), n - 1, limit)
  }

  lemma {:induction false} WithinAll(p: Program, c: Config, n: nat, limit: nat)
    requires forall k: nat :: k <= n && Run(p, c, k).Running? ==> |Run(p, c, k).stack| <= limit
    ensures RunWithin(p, c, n, limit) == Some(Run(p, c, n))
    decreases n
  {
    hide Step;
    assert Run(p, c, 0) == c;
    if n > 0 {
      forall k: nat | k <= n - 1 && Run(p, Step(p, c), k).Running?
        ensures |Run(p, Step(p, c), k).stack| <= limit
      {
        assert Run(p, c, k + 1) == Run(p, Step(p, c), k);
      }
      WithinAll(p, Step(p, c), n - 1, limit);
    }
  }

  lemma RunStaysLow(s: Stmt, m: Arith, self: Value, g: Globals, n: nat)
    requires Compilable(s) && Run(Compiled(s, m), Initial(self, g), n).Running?
    ensures |Run(Compiled(s, m), Initial(self, g), n).stack| <= ProgramHeight(s)
  {
    hide Leads, Framed, Ok, CleanS, AllFit, Run, ProgramHeight;
    var c := Run(Compiled(s, m), Initial(self, g), n);
    RunLeads(Compiled(s, m), Initial(self, g), n);
    PathsStayLow(s, Point(c.pc, |c.stack|));
  }

  /** On a stack that is high enough for its program, nothing is noticed of the limit. */
  lemma LimitUnnoticed(s: Stmt, m: Arith, self: Value, g: Globals, n: nat, limit: nat)
    requires Compilable(s) && ProgramHeight(s) <= limit
    ensures RunWithin(Compiled(s, m), Initial(self, g), n, limit) == Some(Run(Compiled(s, m), Initial(self, g), n))
  {
    hide Compilable, Run, ProgramHeight, RunWithin;
    forall k: nat | k <= n && Run(Compiled(s, m), Initial(self, g), k).Running?
      ensures |Run(Compiled(s, m), Initial(self, g), k).stack| <= limit
    {
      RunStaysLow(s, m, self, g, k);
    }
    WithinAll(Compiled(s, m), Initial(self, g), n, limit);
  }

  /** The compiler theorem on the limited stack. */
  lemma LimitedExact(s: Stmt, m: Arith, self: Value, g: Globals, d: Config)
    requires Compilable(s) && ProgramHeight(s) <= HEIGHT_LIMIT && !d.Running?
    ensures (exists n: nat :: RunWithin(Compiled(s, m), Initial(self, g), n, HEIGHT_LIMIT) == Some(d)) <==>
            exists fuel: nat :: Resting(Meaning(s, m, self, g, fuel)) == d && d != Stuck
  {
    hide Ok, Framed, CleanS, AllFit, Exec, Run, ProgramHeight, RunWithin;
    var p, c := Compiled(s, m), Initial(self, g);
    CompilerExact(s, m, self, g, d);
    if n: nat :| RunWithin(p, c, n, HEIGHT_LIMIT) == Some(d) {
      LimitUnnoticed(s, m, self, g, n, HEIGHT_LIMIT);
      assert Goes(p, c, d);
    }
    if Goes(p, c, d) {
      var n: nat :| Run(p, c, n) == d;
      LimitUnnoticed(s, m, self, g, n, HEIGHT_LIMIT);
    }
  }

  /** The sizes a stack that starts small takes on. */
  predicate Doubled(s: CellMachine.State) {
    s.room in {128, 256, 512, 1024, 2048, 4096, 8192, 16384} && |s.slots| < s.room
  }

  /** A push that enlarges the stack as it must goes well exactly up to that height. */
  lemma PushWithin(s: CellMachine.State, v: CellMachine.Value)
    requires Doubled(s)
    ensures CellMachine.PushStep(s, v).Ran? <==> |s.slots| + 1 <= HEIGHT_LIMIT
    ensures CellMachine.PushStep(s, v).Ran? ==> Doubled(CellMachine.PushStep(s, v).state)
  {
  }
}
