/**
  Programs that are never refused for the width of a jump or of an index: all that have 5000
  statements and operations at the most.
 */
module ShortPrograms {
  import opened Wrappers
  import opened Bytecode
  import opened Syntax
  import opened Semantics
  import opened CodeGen
  import opened Correctness
  import Execution

  /** The nodes of a syntax tree. */
  function NodesE(e: Expr): nat {
    match e
    case Lit(_) => 1
    case Var(_) => 1
    case Assign(_, v) => 1 + NodesE(v)
    case Update(_, _, v) => 1 + NodesE(v)
    case NotE(a) => 1 + NodesE(a)
    case NegE(a) => 1 + NodesE(a)
    case Bin(_, l, r) => 1 + NodesE(l) + NodesE(r)
    case And(l, r) => 1 + NodesE(l) + NodesE(r)
    case Or(l, r) => 1 + NodesE(l) + NodesE(r)
    case Lost(l, r) => 1 + NodesE(l) + NodesE(r)
  }

  function Nodes(s: Stmt): nat {
    match s
    case Nop => 0
    case Seq(a, b) => Nodes(a) + Nodes(b)
    case ExprS(e) => 1 + NodesE(e)
    case LetS(_, e) => 1 + NodesE(e)
    case IfS(c, y, n) => 1 + NodesE(c) + Nodes(y) + Nodes(n)
    case WhileS(c, b) => 1 + NodesE(c) + Nodes(b)
    case BreakS => 1
    case SkipS => 1
    case BlockS(b) => Nodes(b)
  }

  const NODES_MAX: nat := 5000

  /** Twelve bytes a node are enough. */
  predicate Within(ins: seq<Instr>, n: nat) {
    AllFit(ins) && Size(ins) <= 12 * n
  }

  lemma TwoFit(a: seq<Instr>, b: seq<Instr>)
    requires AllFit(a) && AllFit(b)
    ensures AllFit(a + b) && Size(a + b) == Size(a) + Size(b)
  {
    EncodeAllAppend(a, b);
  }

  lemma OneFits(i: Instr)
    requires Fits(i)
    ensures AllFit([i]) && Size([i]) == Len(i) <= 5
  {
  }

  lemma PairFits(i: Instr, j: Instr)
    requires Fits(i) && Fits(j)
    ensures AllFit([i, j]) && Size([i, j]) == Len(i) + Len(j)
  {
    assert [i, j] == [i] + [j];
    OneFits(i);
    OneFits(j);
    TwoFit([i], [j]);
  }

  /** Reading and writing a variable. */
  lemma VarFits(x: string, sc: Scope, base: nat)
    requires |sc| <= 256 && base <= 65535
    ensures Fits(GetVar(x, sc, base)) && Fits(SetVar(x, sc, base)) && |NameConst(x, sc)| <= 1
  {
  }

  lemma {:induction false} ExprFits(e: Expr, sc: Scope, base: nat)
    requires |sc| <= 256 && base + NodesE(e) <= 65535 && NodesE(e) <= NODES_MAX
    ensures Within(GenE(e, sc, base), NodesE(e)) && |ConstsE(e, sc)| <= NodesE(e)
  {
    hide Within, GenE, ConstsE, NameConst;
    match e {
      case Lit(_) => Leaf(e, sc, base);
      case Var(_) => Leaf(e, sc, base);
      case Assign(x, v) =>
        VarFits(x, sc, base);
        ExprFits(v, sc, base + |NameConst(x, sc)|);
        Storing(e, x, v, sc, base);
      case Update(x, _, v) =>
        VarFits(x, sc, base);
        ExprFits(v, sc, base + |NameConst(x, sc)|);
        Storing(e, x, v, sc, base);
      case NotE(a) => ExprFits(a, sc, base); OneOperand(e, a, sc, base);
      case NegE(a) => ExprFits(a, sc, base); OneOperand(e, a, sc, base);
      case Bin(_, l, r) => ExprFits(l, sc, base); ExprFits(r, sc, base + |ConstsE(l, sc)|); TwoOperands(e, l, r, sc, base);
      case And(l, r) => ExprFits(l, sc, base); ExprFits(r, sc, base + |ConstsE(l, sc)|); TwoOperands(e, l, r, sc, base);
      case Or(l, r) => ExprFits(l, sc, base); ExprFits(r, sc, base + |ConstsE(l, sc)|); TwoOperands(e, l, r, sc, base);
      case Lost(l, r) => ExprFits(l, sc, base); ExprFits(r, sc, base + |ConstsE(l, sc)|); TwoOperands(e, l, r, sc, base);
    }
  }

  lemma Leaf(e: Expr, sc: Scope, base: nat)
    requires (e.Lit? || e.Var?) && |sc| <= 256 && base <= 65535
    ensures Within(GenE(e, sc, base), NodesE(e)) && |ConstsE(e, sc)| <= NodesE(e)
  {
    hide Within, Size, Resolve, NameConst, Encode, EncodeAll;
    if e.Lit? {
      OneWithin(GenLiteral(e.literal, base));
    } else {
      VarFits(e.name, sc, base);
      OneWithin(GetVar(e.name, sc, base));
    }
  }

  lemma OneOperand(e: Expr, a: Expr, sc: Scope, base: nat)
    requires e == NotE(a) || e == NegE(a)
    requires Within(GenE(a, sc, base), NodesE(a)) && |ConstsE(a, sc)| <= NodesE(a)
    ensures Within(GenE(e, sc, base), NodesE(e)) && |ConstsE(e, sc)| <= NodesE(e)
  {
    hide Within, Size, Encode, EncodeAll;
    OperatorsFit(Add);
    UnaryFits(GenE(a, sc, base), if e.NotE? then Not else Neg, NodesE(a));
  }

  lemma Storing(e: Expr, x: string, v: Expr, sc: Scope, base: nat)
    requires e == Assign(x, v) || (e.Update? && e.target == x && e.value == v)
    requires |sc| <= 256 && base <= 65535
    requires var base1 := base + |NameConst(x, sc)|; Within(GenE(v, sc, base1), NodesE(v)) && |ConstsE(v, sc)| <= NodesE(v)
    ensures Within(GenE(e, sc, base), NodesE(e)) && |ConstsE(e, sc)| <= NodesE(e)
  {
    hide Within, Size, Encode, EncodeAll, Resolve, GetVar, SetVar, NameConst, Fits;
    VarFits(x, sc, base);
    var code := GenE(v, sc, base + |NameConst(x, sc)|);
    if e.Assign? {
      UnaryFits(code, SetVar(x, sc, base), NodesE(v));
    } else {
      UpdateFits(GetVar(x, sc, base), code, e.op, SetVar(x, sc, base), NodesE(v));
    }
  }

  lemma TwoOperands(e: Expr, l: Expr, r: Expr, sc: Scope, base: nat)
    requires e == And(l, r) || e == Or(l, r) || e == Lost(l, r) || (e.Bin? && e.left == l && e.right == r)
    requires NodesE(e) <= NODES_MAX
    requires Within(GenE(l, sc, base), NodesE(l)) && |ConstsE(l, sc)| <= NodesE(l)
    requires Within(GenE(r, sc, base + |ConstsE(l, sc)|), NodesE(r)) && |ConstsE(r, sc)| <= NodesE(r)
    ensures Within(GenE(e, sc, base), NodesE(e)) && |ConstsE(e, sc)| <= NodesE(e)
  {
    hide Within, Size, Encode, EncodeAll;
    var left, right := GenE(l, sc, base), GenE(r, sc, base + |ConstsE(l, sc)|);
    if e.And? || e.Or? {
      LogicFits(left, right, NodesE(l), NodesE(r));
    } else {
      OperationFits(left, right, if e.Bin? then e.op else Add, NodesE(l), NodesE(r));
    }
  }

  lemma OneWithin(i: Instr)
    requires Fits(i)
    ensures Within([i], 1)
  {
    OneFits(i);
  }

  lemma OperatorsFit(op: BinOp)
    ensures Fits(Binary(op)) && Fits(Not) && Fits(Neg) && Fits(ToBool)
  {
  }

  lemma UnaryFits(code: seq<Instr>, i: Instr, n: nat)
    requires Within(code, n) && Fits(i)
    ensures Within(code + [i], n + 1)
  {
    hide AllFit, Size;
    OneFits(i);
    TwoFit(code, [i]);
  }

  lemma OperationFits(left: seq<Instr>, right: seq<Instr>, op: BinOp, n: nat, k: nat)
    requires Within(left, n) && Within(right, k)
    ensures Within(left + right + [Binary(op)], n + k + 1) && Within(left + right, n + k + 1)
  {
    hide AllFit, Size;
    OperatorsFit(op);
    TwoFit(left, right);
    UnaryFits(left + right, Binary(op), n + k);
  }

  lemma UpdateFits(i: Instr, code: seq<Instr>, op: BinOp, j: Instr, n: nat)
    requires Fits(i) && Fits(j) && Within(code, n)
    ensures Within([i] + code + [Binary(op)] + [j], n + 1)
  {
    hide AllFit, Size;
    OneFits(i);
    OneFits(Binary(op));
    OneFits(j);
    FourFit([i], code, [Binary(op)], [j]);
    assert Len(Binary(op)) == 1;
  }

  /** The code of `and` and `or`. */
  lemma LogicFits(left: seq<Instr>, right: seq<Instr>, n: nat, k: nat)
    requires Within(left, n) && Within(right, k) && k <= NODES_MAX
    ensures Within(left + [JumpIfFalse(1 + Size(right)), Pop] + right + [ToBool], n + k + 1)
    ensures Within(left + [JumpIfFalse(3), Jump(1 + Size(right)), Pop] + right + [ToBool], n + k + 1)
  {
    hide AllFit, Size, Encode, EncodeAll;
    PairFits(JumpIfFalse(1 + Size(right)), Pop);
    PairFits(Jump(1 + Size(right)), Pop);
    OneFits(JumpIfFalse(3));
    OneFits(ToBool);
    TwoFit([JumpIfFalse(3)], [Jump(1 + Size(right)), Pop]);
    assert [JumpIfFalse(3)] + [Jump(1 + Size(right)), Pop] == [JumpIfFalse(3), Jump(1 + Size(right)), Pop];
    FourFit(left, [JumpIfFalse(1 + Size(right)), Pop], right, [ToBool]);
    FourFit(left, [JumpIfFalse(3), Jump(1 + Size(right)), Pop], right, [ToBool]);
  }

  lemma FourFit(a: seq<Instr>, b: seq<Instr>, c: seq<Instr>, d: seq<Instr>)
    requires AllFit(a) && AllFit(b) && AllFit(c) && AllFit(d)
    ensures AllFit(a + b + c + d) && Size(a + b + c + d) == Size(a) + Size(b) + Size(c) + Size(d)
  {
    hide AllFit, Size;
    TwoFit(a, b);
    TwoFit(a + b, c);
    TwoFit(a + b + c, d);
  }

  /* Statements. */

  /** The code of a statement fits, with room for taking its locals off the stack; so do its constants and locals. */
  predicate Small(s: Stmt, sc: Scope, depth: nat, base: nat, back: Option<nat>) {
    var code := Gen(s, sc, depth, base, back);
    && AllFit(code) && Size(code) + Declared(s, depth) <= 12 * Nodes(s)
    && |Consts(s, sc, depth)| <= Nodes(s) && |After(s, sc, depth)| <= 256
  }

  /** As far away from the start of a loop as its nodes allow. */
  predicate Near(back: Option<nat>, n: nat) {
    back.Some? ==> back.value + 12 * n <= 12 * NODES_MAX
  }

  lemma {:induction false} StmtFits(s: Stmt, sc: Scope, depth: nat, base: nat, back: Option<nat>, inLoop: bool)
    requires Ok(s, sc, depth, inLoop) && |sc| <= 256 && base + Nodes(s) <= 65535 && Nodes(s) <= NODES_MAX && Near(back, Nodes(s))
    ensures Small(s, sc, depth, base, back)
  {
    hide Gen, GenE, Consts, ConstsE, After, Declared, AllFit, Size, Encode, EncodeAll, Small, OkE;
    match s {
      case Nop => LeafFits(s, sc, depth, base, back);
      case BreakS => LeafFits(s, sc, depth, base, back);
      case SkipS => LeafFits(s, sc, depth, base, back);
      case ExprS(e) => ExprFits(e, sc, base); ExprSFits(e, sc, depth, base, back);
      case LetS(x, e) => LetFits(x, e, sc, depth, base, back);
      case Seq(a, b) =>
        StmtFits(a, sc, depth, base, back, inLoop);
        SmallIs(a, sc, depth, base, back);
        StmtFits(b, After(a, sc, depth), depth, base + |Consts(a, sc, depth)|, Further(back, Size(Gen(a, sc, depth, base, back))), inLoop);
        SeqFits(a, b, sc, depth, base, back);
      case BlockS(b) =>
        StmtFits(b, sc, depth + 1, base, back, inLoop);
        BlockFits(b, sc, depth, base, back);
      case IfS(c, y, n) =>
        ExprFits(c, sc, base);
        var cond, base1 := GenE(c, sc, base), base + |ConstsE(c, sc)|;
        var back1 := Further(back, Size(cond) + 4);
        StmtFits(y, sc, depth, base1, back1, inLoop);
        SmallIs(y, sc, depth, base1, back1);
        var yes, sc1, base2 := Gen(y, sc, depth, base1, back1), After(y, sc, depth), base1 + |Consts(y, sc, depth)|;
        StmtFits(n, sc1, depth, base2, Further(back, Size(cond) + 4 + Size(yes) + 4), inLoop);
        IfFits(c, y, n, sc, depth, base, back);
      case WhileS(c, b) =>
        ExprFits(c, sc, base);
        StmtFits(b, sc, depth, base + |ConstsE(c, sc)|, Some(Size(GenE(c, sc, base)) + 4), true);
        WhileFits(c, b, sc, depth, base, back);
    }
  }

  lemma SmallIs(s: Stmt, sc: Scope, depth: nat, base: nat, back: Option<nat>)
    requires Small(s, sc, depth, base, back)
    ensures Size(Gen(s, sc, depth, base, back)) <= 12 * Nodes(s) && |Consts(s, sc, depth)| <= Nodes(s) && |After(s, sc, depth)| <= 256
  {
  }

  lemma LeafFits(s: Stmt, sc: Scope, depth: nat, base: nat, back: Option<nat>)
    requires s.Nop? || s.BreakS? || s.SkipS?
    requires |sc| <= 256 && Near(back, Nodes(s))
    ensures Small(s, sc, depth, base, back)
  {
    OneFits(BreakHole);
    if back.Some? {
      OneFits(Loop(back.value + 3));
    }
  }

  lemma ExprSFits(e: Expr, sc: Scope, depth: nat, base: nat, back: Option<nat>)
    requires |sc| <= 256 && Within(GenE(e, sc, base), NodesE(e)) && |ConstsE(e, sc)| <= NodesE(e)
    ensures Small(ExprS(e), sc, depth, base, back)
  {
    hide GenE, ConstsE, AllFit, Size;
    UnaryFits(GenE(e, sc, base), Pop, NodesE(e));
  }

  lemma LetFits(x: string, e: Expr, sc: Scope, depth: nat, base: nat, back: Option<nat>)
    requires (depth > 0 ==> |sc| < 256) && |sc| <= 256 && base + NodesE(e) + 1 <= 65535 && NodesE(e) <= NODES_MAX
    ensures Small(LetS(x, e), sc, depth, base, back)
  {
    hide GenE, ConstsE, AllFit, Size;
    if depth == 0 {
      ExprFits(e, sc, base + 1);
      UnaryFits(GenE(e, sc, base + 1), DefGlobal(0, base), NodesE(e));
    } else {
      ExprFits(e, sc + [Local(x, -1)], base);
    }
  }

  lemma SeqFits(a: Stmt, b: Stmt, sc: Scope, depth: nat, base: nat, back: Option<nat>)
    requires Small(a, sc, depth, base, back)
    requires Small(b, After(a, sc, depth), depth, base + |Consts(a, sc, depth)|, Further(back, Size(Gen(a, sc, depth, base, back))))
    ensures Small(Seq(a, b), sc, depth, base, back)
  {
    SeqGen(a, b, sc, depth, base, back);
    SeqDeclared(a, b, depth);
    hide Gen, Consts, After, Declared, AllFit, Size;
    TwoFit(Gen(a, sc, depth, base, back),
           Gen(b, After(a, sc, depth), depth, base + |Consts(a, sc, depth)|, Further(back, Size(Gen(a, sc, depth, base, back)))));
  }

  lemma SeqDeclared(a: Stmt, b: Stmt, depth: nat)
    ensures Declared(Seq(a, b), depth) == Declared(a, depth) + Declared(b, depth)
  {
  }

  lemma BlockFits(b: Stmt, sc: Scope, depth: nat, base: nat, back: Option<nat>)
    requires Small(b, sc, depth + 1, base, back) && |sc| <= 256
    ensures Small(BlockS(b), sc, depth, base, back)
  {
    var n := Declared(b, depth + 1);
    hide AllFit, Size;
    PopsFit(n);
    TwoFit(Gen(b, sc, depth + 1, base, back), Pops(n));
  }

  lemma {:induction false} PopsFit(n: nat)
    ensures AllFit(Pops(n)) && Size(Pops(n)) == n
  {
    if n > 0 {
      PopsFit(n - 1);
      OneFits(Pop);
      TwoFit([Pop], Pops(n - 1));
    }
  }

  lemma IfIs(c: Expr, y: Stmt, n: Stmt, sc: Scope, depth: nat, base: nat, back: Option<nat>)
    ensures var cond, base1 := GenE(c, sc, base), base + |ConstsE(c, sc)|;
      var back1 := Further(back, Size(cond) + 4);
      var yes, sc1, base2 := Gen(y, sc, depth, base1, back1), After(y, sc, depth), base1 + |Consts(y, sc, depth)|;
      var no := Gen(n, sc1, depth, base2, Further(back, Size(cond) + 4 + Size(yes) + 4));
      Gen(IfS(c, y, n), sc, depth, base, back) == cond + Branches(yes, no)
  {
    hide GenE, ConstsE, Size, EncodeAll, Branches, Looped, Pops, Declared, Further, After, Consts;
  }

  lemma IfCounts(c: Expr, y: Stmt, n: Stmt, sc: Scope, depth: nat)
    ensures var s, sc1 := IfS(c, y, n), After(y, sc, depth);
      && After(s, sc, depth) == After(n, sc1, depth) && Declared(s, depth) == Declared(y, depth) + Declared(n, depth)
      && |Consts(s, sc, depth)| == |ConstsE(c, sc)| + |Consts(y, sc, depth)| + |Consts(n, sc1, depth)|
      && Nodes(s) == 1 + NodesE(c) + Nodes(y) + Nodes(n)
  {
    hide ConstsE, NodesE, Gen;
  }

  lemma IfFits(c: Expr, y: Stmt, n: Stmt, sc: Scope, depth: nat, base: nat, back: Option<nat>)
    requires Nodes(IfS(c, y, n)) <= NODES_MAX
    requires Within(GenE(c, sc, base), NodesE(c)) && |ConstsE(c, sc)| <= NodesE(c)
    requires var cond, base1 := GenE(c, sc, base), base + |ConstsE(c, sc)|;
      var back1 := Further(back, Size(cond) + 4);
      var yes, sc1, base2 := Gen(y, sc, depth, base1, back1), After(y, sc, depth), base1 + |Consts(y, sc, depth)|;
      Small(y, sc, depth, base1, back1) && Small(n, sc1, depth, base2, Further(back, Size(cond) + 4 + Size(yes) + 4))
    ensures Small(IfS(c, y, n), sc, depth, base, back)
  {
    IfIs(c, y, n, sc, depth, base, back);
    IfCounts(c, y, n, sc, depth);
    hide Gen, GenE, Consts, ConstsE, AllFit, Size, Branches, After, Declared, Further, Nodes, NodesE;
    var cond, base1 := GenE(c, sc, base), base + |ConstsE(c, sc)|;
    var back1 := Further(back, Size(cond) + 4);
    var yes, sc1, base2 := Gen(y, sc, depth, base1, back1), After(y, sc, depth), base1 + |Consts(y, sc, depth)|;
    var no := Gen(n, sc1, depth, base2, Further(back, Size(cond) + 4 + Size(yes) + 4));
    BranchesFit(yes, no);
    TwoFit(cond, Branches(yes, no));
  }

  lemma BranchesFit(yes: seq<Instr>, no: seq<Instr>)
    requires AllFit(yes) && AllFit(no) && Size(yes) + Size(no) <= 12 * NODES_MAX
    ensures AllFit(Branches(yes, no)) && Size(Branches(yes, no)) == Size(yes) + Size(no) + 8
  {
    hide AllFit, Size;
    PairFits(JumpIfFalse(Size(yes) + 4), Pop);
    PairFits(Jump(1 + Size(no)), Pop);
    TwoFit([Jump(1 + Size(no)), Pop], no);
    TwoFit(yes, [Jump(1 + Size(no)), Pop] + no);
    TwoFit([JumpIfFalse(Size(yes) + 4), Pop], yes + ([Jump(1 + Size(no)), Pop] + no));
  }

  lemma WhileFits(c: Expr, b: Stmt, sc: Scope, depth: nat, base: nat, back: Option<nat>)
    requires Nodes(WhileS(c, b)) <= NODES_MAX
    requires Within(GenE(c, sc, base), NodesE(c)) && |ConstsE(c, sc)| <= NodesE(c)
    requires Small(b, sc, depth, base + |ConstsE(c, sc)|, Some(Size(GenE(c, sc, base)) + 4))
    ensures Small(WhileS(c, b), sc, depth, base, back)
  {
    hide GenE, ConstsE, AllFit, Size, Looped;
    LoopedFits(GenE(c, sc, base), Gen(b, sc, depth, base + |ConstsE(c, sc)|, Some(Size(GenE(c, sc, base)) + 4)));
  }

  lemma LoopedFits(cond: seq<Instr>, body: seq<Instr>)
    requires AllFit(cond) && AllFit(body) && Size(cond) + Size(body) <= 12 * NODES_MAX
    ensures AllFit(Looped(cond, body)) && Size(Looped(cond, body)) == Size(cond) + Size(body) + 8
  {
    hide AllFit, Size, Patch;
    var inner := Patch(body, Size(body) + 4);
    PatchFits(body, Size(body) + 4);
    PatchSize(body, Size(body) + 4);
    PairFits(JumpIfFalse(Size(body) + 4), Pop);
    PairFits(Loop(Size(cond) + Size(body) + 7), Pop);
    TwoFit(inner, [Loop(Size(cond) + Size(body) + 7), Pop]);
    TwoFit([JumpIfFalse(Size(body) + 4), Pop], inner + [Loop(Size(cond) + Size(body) + 7), Pop]);
    TwoFit(cond, [JumpIfFalse(Size(body) + 4), Pop] + (inner + [Loop(Size(cond) + Size(body) + 7), Pop]));
  }

  lemma {:induction false} PatchFits(ins: seq<Instr>, dist: int)
    requires AllFit(ins) && Size(ins) + 3 <= dist <= 65535
    ensures AllFit(Patch(ins, dist))
  {
    hide Encode, EncodeAll;
    if ins != [] {
      PatchFits(ins[1..], dist - Len(ins[0]));
    }
  }

  /** A program with no more nodes is compiled if its names, its loop statements and its locals are in order. */
  lemma ShortCompilable(s: Stmt)
    requires CleanS(s) && Ok(s, MainScope, 0, false) && Nodes(s) <= NODES_MAX
    ensures AllFit(GenProgram(s)) && (Framed(s, 0, 1, None) ==> Compilable(s))
  {
    hide Gen, Consts, After, Declared, AllFit, Size, Ok, Framed, CleanS;
    StmtFits(s, MainScope, 0, 1, None, false);
    EndFits();
    TwoFit(Gen(s, MainScope, 0, 1, None), [PushNone, Return, End]);
  }

  lemma EndFits()
    ensures AllFit([PushNone, Return, End])
  {
  }
}
