/**
  The height of the stack on every path through compiled code, whichever way conditions
  turn out: at every statement boundary of every path the stack holds exactly the locals the
  compiler knows of, if and only if the program is framed.
 */
module Heights {
  import opened Wrappers
  import opened Bytecode
  import opened Syntax
  import opened Semantics
  import opened CodeGen
  import opened Machine
  import opened Simulation
  import opened Execution
  import opened Correctness

  /** A place in the code and the number of values on the stack there. */
  datatype Point = Point(pc: int, height: int)

  /** How many values an instruction takes off the stack, and how many it puts there. */
  function Takes(i: Instr): nat {
    match i
    case Binary(_) => 2
    case Const(_) => 0
    case PushNone => 0
    case PushTrue => 0
    case PushFalse => 0
    case GetLocal(_) => 0
    case GetGlobal(_, _) => 0
    case Jump(_) => 0
    case Loop(_) => 0
    case _ => 1
  }

  function Puts(i: Instr): nat {
    match i
    case Pop => 0
    case DefGlobal(_, _) => 0
    case Jump(_) => 0
    case Loop(_) => 0
    case _ => 1
  }

  /** Where an instruction may lead: a conditional jump leads two ways, an end nowhere. */
  predicate Targets(i: Instr, next: int, to: int) {
    match i
    case JumpIfFalse(offset) => to == next || to == next + offset
    case Jump(offset) => to == next + offset
    case Loop(offset) => to == next - offset
    case Return => false
    case End => false
    case BreakHole => false
    case _ => to == next
  }

  predicate Moves(fetch: Fetch, a: Point, b: Point) {
    a.pc >= 0 &&
    var f := fetch(a.pc);
    f.Some? && a.height >= Takes(f.value.instr) && Targets(f.value.instr, f.value.next, b.pc) && b.pc >= 0 &&
    b.height == a.height - Takes(f.value.instr) + Puts(f.value.instr)
  }

  ghost predicate Walk(fetch: Fetch, a: Point, b: Point, n: nat)
    decreases n
  {
    if n == 0 then a == b else exists c :: Moves(fetch, a, c) && Walk(fetch, c, b, n - 1)
  }

  ghost predicate Leads(fetch: Fetch, a: Point, b: Point) {
    exists n: nat :: Walk(fetch, a, b, n)
  }

  lemma LeadsNowhere(fetch: Fetch, a: Point)
    ensures Leads(fetch, a, a)
  {
    assert Walk(fetch, a, a, 0);
  }

  lemma {:induction false} WalkOn(fetch: Fetch, a: Point, b: Point, c: Point, m: nat, n: nat)
    requires Walk(fetch, a, b, m) && Walk(fetch, b, c, n)
    ensures Walk(fetch, a, c, m + n)
    decreases m
  {
    if m > 0 {
      var d :| Moves(fetch, a, d) && Walk(fetch, d, b, m - 1);
      WalkOn(fetch, d, b, c, m - 1, n);
    }
  }

  lemma LeadsOn(fetch: Fetch, a: Point, b: Point, c: Point)
    requires Leads(fetch, a, b) && Leads(fetch, b, c)
    ensures Leads(fetch, a, c)
  {
    var m: nat :| Walk(fetch, a, b, m);
    var n: nat :| Walk(fetch, b, c, n);
    WalkOn(fetch, a, b, c, m, n);
  }

  lemma LeadsStep(fetch: Fetch, a: Point, b: Point, c: Point)
    requires Leads(fetch, a, b) && Moves(fetch, b, c)
    ensures Leads(fetch, a, c)
  {
    assert Walk(fetch, c, c, 0);
    assert Walk(fetch, b, c, 1);
    LeadsOn(fetch, a, b, c);
  }

  /** The machine itself takes such paths. */
  lemma StepMoves(p: Program, c: Config)
    requires c.Running? && Step(p, c).Running?
    ensures Moves(p.fetch, Point(c.pc, |c.stack|), Point(Step(p, c).pc, |Step(p, c).stack|))
  {
  }

  lemma {:induction false} RunLeads(p: Program, c: Config, n: nat)
    requires c.Running? && Run(p, c, n).Running?
    ensures Leads(p.fetch, Point(c.pc, |c.stack|), Point(Run(p, c, n).pc, |Run(p, c, n).stack|))
    decreases n
  {
    hide Step, Moves, Leads;
    var a := Point(c.pc, |c.stack|);
    LeadsNowhere(p.fetch, a);
    if n > 0 {
      if !Step(p, c).Running? {
        RunAtRest(p, Step(p, c), n - 1);
      }
      StepMoves(p, c);
      RunLeads(p, Step(p, c), n - 1);
      var b := Point(Step(p, c).pc, |Step(p, c).stack|);
      LeadsStep(p.fetch, a, a, b);
      LeadsOn(p.fetch, a, b, Point(Run(p, c, n).pc, |Run(p, c, n).stack|));
    }
  }

  /* Expressions. */

  predicate At(fetch: Fetch, pc: nat, i: Instr) {
    fetch(pc) == Some(Decoded(i, pc + Len(i)))
  }

  lemma ApartAt(fetch: Fetch, pc: nat, a: seq<Instr>, b: seq<Instr>)
    requires InstrsAt(fetch, pc, a + b)
    ensures InstrsAt(fetch, pc, a) && InstrsAt(fetch, pc + Size(a), b) && Size(a + b) == Size(a) + Size(b)
  {
    InstrsAtAppend(fetch, pc, a, b);
    EncodeAllAppend(a, b);
  }

  lemma OneAt(fetch: Fetch, pc: nat, i: Instr)
    requires InstrsAt(fetch, pc, [i])
    ensures At(fetch, pc, i) && Size([i]) == Len(i)
  {
  }

  lemma LastAt(fetch: Fetch, pc: nat, a: seq<Instr>, i: Instr)
    requires InstrsAt(fetch, pc, a + [i])
    ensures InstrsAt(fetch, pc, a) && At(fetch, pc + Size(a), i) && Size(a + [i]) == Size(a) + Len(i)
  {
    ApartAt(fetch, pc, a, [i]);
    OneAt(fetch, pc + Size(a), i);
  }

  lemma FirstAt(fetch: Fetch, pc: nat, i: Instr, a: seq<Instr>)
    requires InstrsAt(fetch, pc, [i] + a)
    ensures At(fetch, pc, i) && InstrsAt(fetch, pc + Len(i), a) && Size([i] + a) == Len(i) + Size(a)
  {
    ApartAt(fetch, pc, [i], a);
    OneAt(fetch, pc, i);
  }

  lemma TwoAt(fetch: Fetch, pc: nat, i: Instr, j: Instr)
    requires InstrsAt(fetch, pc, [i, j])
    ensures At(fetch, pc, i) && At(fetch, pc + Len(i), j) && Size([i, j]) == Len(i) + Len(j)
  {
    assert [i, j] == [i] + [j];
    FirstAt(fetch, pc, i, [j]);
    OneAt(fetch, pc + Len(i), j);
  }

  /** The parts of the code of an expression, where it stands. */
  predicate LaidE(fetch: Fetch, e: Expr, sc: Scope, base: nat, pc: nat) {
    Clean(e) && InstrsAt(fetch, pc, GenE(e, sc, base))
  }

  function SizeE(e: Expr, sc: Scope, base: nat): nat {
    Size(GenE(e, sc, base))
  }

  /** The base of the second operand, or of the value of an assignment. */
  function Base2(e: Expr, sc: Scope, base: nat): nat {
    match e
    case Assign(x, _) => base + |NameConst(x, sc)|
    case Update(x, _, _) => base + |NameConst(x, sc)|
    case Bin(_, l, _) => base + |ConstsE(l, sc)|
    case And(l, _) => base + |ConstsE(l, sc)|
    case Or(l, _) => base + |ConstsE(l, sc)|
    case Lost(l, _) => base + |ConstsE(l, sc)|
    case _ => base
  }

  predicate PartsLaid(fetch: Fetch, e: Expr, sc: Scope, base: nat, pc: nat) {
    var base2, size := Base2(e, sc, base), SizeE(e, sc, base);
    match e
    case Lit(l) => At(fetch, pc, GenLiteral(l, base)) && size == Len(GenLiteral(l, base))
    case Var(x) => At(fetch, pc, GetVar(x, sc, base)) && size == Len(GetVar(x, sc, base))
    case Assign(x, v) =>
      var n, put := SizeE(v, sc, base2), SetVar(x, sc, base);
      LaidE(fetch, v, sc, base2, pc) && At(fetch, pc + n, put) && size == n + Len(put)
    case Update(x, op, v) =>
      var k, n, put := Len(GetVar(x, sc, base)), SizeE(v, sc, base2), SetVar(x, sc, base);
      At(fetch, pc, GetVar(x, sc, base)) && LaidE(fetch, v, sc, base2, pc + k) && At(fetch, pc + k + n, Binary(op)) &&
      At(fetch, pc + k + n + 1, put) && size == k + n + 1 + Len(put)
    case NotE(a) => LaidE(fetch, a, sc, base, pc) && At(fetch, pc + SizeE(a, sc, base), Not) && size == SizeE(a, sc, base) + 1
    case NegE(a) => LaidE(fetch, a, sc, base, pc) && At(fetch, pc + SizeE(a, sc, base), Neg) && size == SizeE(a, sc, base) + 1
    case Bin(op, l, r) =>
      var m, n := SizeE(l, sc, base), SizeE(r, sc, base2);
      LaidE(fetch, l, sc, base, pc) && LaidE(fetch, r, sc, base2, pc + m) && At(fetch, pc + m + n, Binary(op)) && size == m + n + 1
    case And(l, r) =>
      var m, n := SizeE(l, sc, base), SizeE(r, sc, base2);
      LaidE(fetch, l, sc, base, pc) && At(fetch, pc + m, JumpIfFalse(1 + n)) && At(fetch, pc + m + 3, Pop) &&
      LaidE(fetch, r, sc, base2, pc + m + 4) && At(fetch, pc + m + 4 + n, ToBool) && size == m + n + 5
    case Or(l, r) =>
      var m, n := SizeE(l, sc, base), SizeE(r, sc, base2);
      LaidE(fetch, l, sc, base, pc) && At(fetch, pc + m, JumpIfFalse(3)) && At(fetch, pc + m + 3, Jump(1 + n)) &&
      At(fetch, pc + m + 6, Pop) && LaidE(fetch, r, sc, base2, pc + m + 7) && At(fetch, pc + m + 7 + n, ToBool) && size == m + n + 8
    case Lost(_, _) => false
  }

  lemma LaidApart(fetch: Fetch, e: Expr, sc: Scope, base: nat, pc: nat)
    requires LaidE(fetch, e, sc, base, pc)
    ensures PartsLaid(fetch, e, sc, base, pc)
  {
    hide InstrsAt, Size, EncodeAll, Encode, At, GetVar, SetVar, GenLiteral;
    var base2 := Base2(e, sc, base);
    match e
    case Lit(l) => OneAt(fetch, pc, GenLiteral(l, base));
    case Var(x) => OneAt(fetch, pc, GetVar(x, sc, base));
    case Assign(x, v) => LastAt(fetch, pc, GenE(v, sc, base2), SetVar(x, sc, base));
    case Update(x, op, v) =>
      var get, code, put := GetVar(x, sc, base), GenE(v, sc, base2), SetVar(x, sc, base);
      UpdateApart(fetch, get, code, Binary(op), put, pc);
    case NotE(a) => LastAt(fetch, pc, GenE(a, sc, base), Not);
    case NegE(a) => LastAt(fetch, pc, GenE(a, sc, base), Neg);
    case Bin(op, l, r) => BinApart(fetch, GenE(l, sc, base), GenE(r, sc, base2), Binary(op), pc);
    case And(l, r) => AndApart(fetch, GenE(l, sc, base), GenE(r, sc, base2), pc);
    case Or(l, r) => OrApart(fetch, GenE(l, sc, base), GenE(r, sc, base2), pc);
  }

  lemma UpdateApart(fetch: Fetch, get: Instr, code: seq<Instr>, op: Instr, put: Instr, pc: nat)
    requires InstrsAt(fetch, pc, [get] + code + [op] + [put]) && Len(op) == 1
    ensures var k, n := Len(get), Size(code);
      && At(fetch, pc, get) && InstrsAt(fetch, pc + k, code) && At(fetch, pc + k + n, op) && At(fetch, pc + k + n + 1, put)
      && Size([get] + code + [op] + [put]) == k + n + 1 + Len(put)
  {
    hide InstrsAt, Size, EncodeAll, Encode, At, Len;
    LastAt(fetch, pc, [get] + code + [op], put);
    LastAt(fetch, pc, [get] + code, op);
    FirstAt(fetch, pc, get, code);
  }

  lemma BinApart(fetch: Fetch, left: seq<Instr>, right: seq<Instr>, op: Instr, pc: nat)
    requires InstrsAt(fetch, pc, left + right + [op]) && Len(op) == 1
    ensures var m, n := Size(left), Size(right);
      && InstrsAt(fetch, pc, left) && InstrsAt(fetch, pc + m, right) && At(fetch, pc + m + n, op)
      && Size(left + right + [op]) == m + n + 1
  {
    hide InstrsAt, Size, EncodeAll, Encode, At, Len;
    LastAt(fetch, pc, left + right, op);
    ApartAt(fetch, pc, left, right);
  }

  lemma AndApart(fetch: Fetch, left: seq<Instr>, right: seq<Instr>, pc: nat)
    requires InstrsAt(fetch, pc, left + [JumpIfFalse(1 + Size(right)), Pop] + right + [ToBool])
    ensures var m, n := Size(left), Size(right);
      && InstrsAt(fetch, pc, left) && At(fetch, pc + m, JumpIfFalse(1 + n)) && At(fetch, pc + m + 3, Pop)
      && InstrsAt(fetch, pc + m + 4, right) && At(fetch, pc + m + 4 + n, ToBool)
      && Size(left + [JumpIfFalse(1 + n), Pop] + right + [ToBool]) == m + n + 5
  {
    hide InstrsAt, Size, EncodeAll, Encode, At;
    var jump := JumpIfFalse(1 + Size(right));
    LastAt(fetch, pc, left + [jump, Pop] + right, ToBool);
    ApartAt(fetch, pc, left + [jump, Pop], right);
    ApartAt(fetch, pc, left, [jump, Pop]);
    TwoAt(fetch, pc + Size(left), jump, Pop);
  }

  lemma OrApart(fetch: Fetch, left: seq<Instr>, right: seq<Instr>, pc: nat)
    requires InstrsAt(fetch, pc, left + [JumpIfFalse(3), Jump(1 + Size(right)), Pop] + right + [ToBool])
    ensures var m, n := Size(left), Size(right);
      && InstrsAt(fetch, pc, left) && At(fetch, pc + m, JumpIfFalse(3)) && At(fetch, pc + m + 3, Jump(1 + n))
      && At(fetch, pc + m + 6, Pop) && InstrsAt(fetch, pc + m + 7, right) && At(fetch, pc + m + 7 + n, ToBool)
      && Size(left + [JumpIfFalse(3), Jump(1 + n), Pop] + right + [ToBool]) == m + n + 8
  {
    hide InstrsAt, Size, EncodeAll, Encode, At;
    var over := Jump(1 + Size(right));
    var jumps := [JumpIfFalse(3), over, Pop];
    LastAt(fetch, pc, left + jumps + right, ToBool);
    ApartAt(fetch, pc, left + jumps, right);
    ApartAt(fetch, pc, left, jumps);
    assert jumps == [JumpIfFalse(3)] + [over, Pop];
    FirstAt(fetch, pc + Size(left), JumpIfFalse(3), [over, Pop]);
    TwoAt(fetch, pc + Size(left) + 3, over, Pop);
  }

  /** The points inside the code of an expression that starts at `pc` on a stack of height `h`. */
  predicate InE(e: Expr, sc: Scope, base: nat, pc: int, h: int, q: Point) {
    var base2 := Base2(e, sc, base);
    match e
    case Lit(_) => q == Point(pc, h)
    case Var(_) => q == Point(pc, h)
    case Assign(x, v) => InE(v, sc, base2, pc, h, q) || q == Point(pc + SizeE(v, sc, base2), h + 1)
    case Update(x, op, v) =>
      var k, n := Len(GetVar(x, sc, base)), SizeE(v, sc, base2);
      q == Point(pc, h) || InE(v, sc, base2, pc + k, h + 1, q) || q == Point(pc + k + n, h + 2) || q == Point(pc + k + n + 1, h + 1)
    case NotE(a) => InE(a, sc, base, pc, h, q) || q == Point(pc + SizeE(a, sc, base), h + 1)
    case NegE(a) => InE(a, sc, base, pc, h, q) || q == Point(pc + SizeE(a, sc, base), h + 1)
    case Bin(_, l, r) =>
      var m, n := SizeE(l, sc, base), SizeE(r, sc, base2);
      InE(l, sc, base, pc, h, q) || InE(r, sc, base2, pc + m, h + 1, q) || q == Point(pc + m + n, h + 2)
    case And(l, r) =>
      var m, n := SizeE(l, sc, base), SizeE(r, sc, base2);
      InE(l, sc, base, pc, h, q) || q == Point(pc + m, h + 1) || q == Point(pc + m + 3, h + 1) ||
      InE(r, sc, base2, pc + m + 4, h, q) || q == Point(pc + m + 4 + n, h + 1)
    case Or(l, r) =>
      var m, n := SizeE(l, sc, base), SizeE(r, sc, base2);
      InE(l, sc, base, pc, h, q) || q == Point(pc + m, h + 1) || q == Point(pc + m + 3, h + 1) || q == Point(pc + m + 6, h + 1) ||
      InE(r, sc, base2, pc + m + 7, h, q) || q == Point(pc + m + 7 + n, h + 1)
    case Lost(_, _) => false
  }

  lemma {:induction false} SizePositive(e: Expr, sc: Scope, base: nat)
    ensures SizeE(e, sc, base) >= 1
  {
    hide EncodeAll, Encode;
    FirstOfCode(GenE(e, sc, base));
    GenENotEmpty(e, sc, base);
  }

  lemma FirstOfCode(ins: seq<Instr>)
    ensures ins != [] ==> Size(ins) >= 1
  {
  }

  lemma {:induction false} GenENotEmpty(e: Expr, sc: Scope, base: nat)
    ensures GenE(e, sc, base) != []
  {
    if e.Lost? {
      GenENotEmpty(e.left, sc, base);
    }
  }

  /** The code starts at its first point, and no other point stands there. */
  lemma {:induction false} StartE(fetch: Fetch, e: Expr, sc: Scope, base: nat, pc: nat, h: int)
    requires LaidE(fetch, e, sc, base, pc)
    ensures InE(e, sc, base, pc, h, Point(pc, h))
  {
    hide InstrsAt, Size, EncodeAll, Encode, At, GenE;
    LaidApart(fetch, e, sc, base, pc);
    match e
    case Assign(x, v) => StartE(fetch, v, sc, Base2(e, sc, base), pc, h);
    case NotE(a) => StartE(fetch, a, sc, base, pc, h);
    case NegE(a) => StartE(fetch, a, sc, base, pc, h);
    case Bin(op, l, r) => StartE(fetch, l, sc, base, pc, h);
    case And(l, r) => StartE(fetch, l, sc, base, pc, h);
    case Or(l, r) => StartE(fetch, l, sc, base, pc, h);
    case _ =>
  }

  lemma {:induction false} RangeE(fetch: Fetch, e: Expr, sc: Scope, base: nat, pc: nat, h: int, q: Point)
    requires LaidE(fetch, e, sc, base, pc) && InE(e, sc, base, pc, h, q)
    ensures pc <= q.pc < pc + SizeE(e, sc, base) && (q.pc == pc ==> q.height == h)
    decreases e, 0
  {
    hide InstrsAt, Size, EncodeAll, Encode, At, GenE, Len;
    LaidApart(fetch, e, sc, base, pc);
    var base2 := Base2(e, sc, base);
    match e
    case Assign(x, v) =>
      SizePositive(v, sc, base2);
      if InE(v, sc, base2, pc, h, q) {
        RangeE(fetch, v, sc, base2, pc, h, q);
      }
    case Update(x, op, v) =>
      var k := Len(GetVar(x, sc, base));
      if InE(v, sc, base2, pc + k, h + 1, q) {
        RangeE(fetch, v, sc, base2, pc + k, h + 1, q);
      }
    case NotE(a) => RangeOperand(fetch, a, sc, base, pc, h, q);
    case NegE(a) => RangeOperand(fetch, a, sc, base, pc, h, q);
    case Bin(_, l, r) =>
      RangeOperand(fetch, l, sc, base, pc, h, q);
      RangeOperand(fetch, r, sc, base2, pc + SizeE(l, sc, base), h + 1, q);
    case And(l, r) =>
      RangeOperand(fetch, l, sc, base, pc, h, q);
      RangeOperand(fetch, r, sc, base2, pc + SizeE(l, sc, base) + 4, h, q);
    case Or(l, r) =>
      RangeOperand(fetch, l, sc, base, pc, h, q);
      RangeOperand(fetch, r, sc, base2, pc + SizeE(l, sc, base) + 7, h, q);
    case _ =>
  }

  lemma {:induction false} RangeOperand(fetch: Fetch, a: Expr, sc: Scope, base: nat, pc: nat, h: int, q: Point)
    requires LaidE(fetch, a, sc, base, pc)
    ensures SizeE(a, sc, base) >= 1
    ensures InE(a, sc, base, pc, h, q) ==> pc <= q.pc < pc + SizeE(a, sc, base) && (q.pc == pc ==> q.height == h)
    decreases a, 1
  {
    SizePositive(a, sc, base);
    if InE(a, sc, base, pc, h, q) {
      RangeE(fetch, a, sc, base, pc, h, q);
    }
  }

  /** One step inside an expression stays inside, or leaves it with its value on the stack. */
  ghost predicate StaysE(fetch: Fetch, e: Expr, sc: Scope, base: nat, pc: nat, h: int) {
    forall q, r :: InE(e, sc, base, pc, h, q) && Moves(fetch, q, r) ==>
      InE(e, sc, base, pc, h, r) || r == Point(pc + SizeE(e, sc, base), h + 1)
  }

  lemma {:induction false} ClosedE(fetch: Fetch, e: Expr, sc: Scope, base: nat, pc: nat, h: int)
    requires LaidE(fetch, e, sc, base, pc)
    ensures StaysE(fetch, e, sc, base, pc, h)
    decreases e
  {
    hide InstrsAt, Size, EncodeAll, Encode, GenE, StaysE;
    LaidApart(fetch, e, sc, base, pc);
    var base2 := Base2(e, sc, base);
    match e
    case Lit(l) => ClosedLeaf(fetch, e, sc, base, pc, h);
    case Var(x) => ClosedLeaf(fetch, e, sc, base, pc, h);
    case Assign(x, v) =>
      ClosedE(fetch, v, sc, base2, pc, h);
      ClosedAssign(fetch, e, sc, base, pc, h);
    case Update(x, op, v) =>
      var k := Len(GetVar(x, sc, base));
      StartE(fetch, v, sc, base2, pc + k, h + 1);
      ClosedE(fetch, v, sc, base2, pc + k, h + 1);
      ClosedUpdate(fetch, e, sc, base, pc, h);
    case NotE(a) =>
      ClosedE(fetch, a, sc, base, pc, h);
      ClosedUnary(fetch, e, sc, base, pc, h);
    case NegE(a) =>
      ClosedE(fetch, a, sc, base, pc, h);
      ClosedUnary(fetch, e, sc, base, pc, h);
    case Bin(_, l, r) =>
      var m := SizeE(l, sc, base);
      ClosedE(fetch, l, sc, base, pc, h);
      StartE(fetch, r, sc, base2, pc + m, h + 1);
      ClosedE(fetch, r, sc, base2, pc + m, h + 1);
      ClosedBin(fetch, e, sc, base, pc, h);
    case And(l, r) =>
      var m := SizeE(l, sc, base);
      ClosedE(fetch, l, sc, base, pc, h);
      StartE(fetch, r, sc, base2, pc + m + 4, h);
      ClosedE(fetch, r, sc, base2, pc + m + 4, h);
      ClosedAnd(fetch, e, sc, base, pc, h);
    case Or(l, r) =>
      var m := SizeE(l, sc, base);
      ClosedE(fetch, l, sc, base, pc, h);
      StartE(fetch, r, sc, base2, pc + m + 7, h);
      ClosedE(fetch, r, sc, base2, pc + m + 7, h);
      ClosedOr(fetch, e, sc, base, pc, h);
  }

  lemma ClosedLeaf(fetch: Fetch, e: Expr, sc: Scope, base: nat, pc: nat, h: int)
    requires (e.Lit? || e.Var?) && PartsLaid(fetch, e, sc, base, pc)
    ensures StaysE(fetch, e, sc, base, pc, h)
  {
    hide Encode, Len, SizeE;
  }

  lemma ClosedAssign(fetch: Fetch, e: Expr, sc: Scope, base: nat, pc: nat, h: int)
    requires e.Assign? && PartsLaid(fetch, e, sc, base, pc) && StaysE(fetch, e.value, sc, Base2(e, sc, base), pc, h)
    ensures StaysE(fetch, e, sc, base, pc, h)
  {
    hide Encode, Len, SizeE, LaidE;
  }

  lemma ClosedUpdate(fetch: Fetch, e: Expr, sc: Scope, base: nat, pc: nat, h: int)
    requires e.Update? && PartsLaid(fetch, e, sc, base, pc)
    requires var k := Len(GetVar(e.target, sc, base));
      StaysE(fetch, e.value, sc, Base2(e, sc, base), pc + k, h + 1) &&
      InE(e.value, sc, Base2(e, sc, base), pc + k, h + 1, Point(pc + k, h + 1))
    ensures StaysE(fetch, e, sc, base, pc, h)
  {
    hide Encode, SizeE, LaidE;
  }

  lemma ClosedUnary(fetch: Fetch, e: Expr, sc: Scope, base: nat, pc: nat, h: int)
    requires (e.NotE? || e.NegE?) && PartsLaid(fetch, e, sc, base, pc) && StaysE(fetch, e.operand, sc, base, pc, h)
    ensures StaysE(fetch, e, sc, base, pc, h)
  {
    hide Encode, SizeE, LaidE;
  }

  lemma ClosedBin(fetch: Fetch, e: Expr, sc: Scope, base: nat, pc: nat, h: int)
    requires e.Bin? && PartsLaid(fetch, e, sc, base, pc) && StaysE(fetch, e.left, sc, base, pc, h)
    requires var at := pc + SizeE(e.left, sc, base);
      StaysE(fetch, e.right, sc, Base2(e, sc, base), at, h + 1) && InE(e.right, sc, Base2(e, sc, base), at, h + 1, Point(at, h + 1))
    ensures StaysE(fetch, e, sc, base, pc, h)
  {
    hide Encode, SizeE, LaidE;
  }

  lemma ClosedAnd(fetch: Fetch, e: Expr, sc: Scope, base: nat, pc: nat, h: int)
    requires e.And? && PartsLaid(fetch, e, sc, base, pc) && StaysE(fetch, e.left, sc, base, pc, h)
    requires var at := pc + SizeE(e.left, sc, base) + 4;
      StaysE(fetch, e.right, sc, Base2(e, sc, base), at, h) && InE(e.right, sc, Base2(e, sc, base), at, h, Point(at, h))
    ensures StaysE(fetch, e, sc, base, pc, h)
  {
    hide Encode, SizeE, LaidE;
  }

  lemma ClosedOr(fetch: Fetch, e: Expr, sc: Scope, base: nat, pc: nat, h: int)
    requires e.Or? && PartsLaid(fetch, e, sc, base, pc) && StaysE(fetch, e.left, sc, base, pc, h)
    requires var at := pc + SizeE(e.left, sc, base) + 7;
      StaysE(fetch, e.right, sc, Base2(e, sc, base), at, h) && InE(e.right, sc, Base2(e, sc, base), at, h, Point(at, h))
    ensures StaysE(fetch, e, sc, base, pc, h)
  {
    hide Encode, SizeE, LaidE;
  }

  /** One more instruction, whichever way it goes. */
  lemma LeadsAt(fetch: Fetch, a: Point, pc: nat, h: int, i: Instr, to: nat)
    requires Leads(fetch, a, Point(pc, h)) && At(fetch, pc, i) && h >= Takes(i) && Targets(i, pc + Len(i), to)
    ensures Leads(fetch, a, Point(to, h - Takes(i) + Puts(i)))
  {
    hide Leads, Len;
    LeadsStep(fetch, a, Point(pc, h), Point(to, h - Takes(i) + Puts(i)));
  }

  /** Some path leads through an expression, and leaves its value. */
  lemma {:induction false} LeadsE(fetch: Fetch, a: Point, e: Expr, sc: Scope, base: nat, pc: nat, h: nat)
    requires LaidE(fetch, e, sc, base, pc) && Leads(fetch, a, Point(pc, h))
    ensures Leads(fetch, a, Point(pc + SizeE(e, sc, base), h + 1))
    decreases e, 1
  {
    hide InstrsAt, Size, EncodeAll, Encode, GenE, Leads, At, LaidE;
    LaidApart(fetch, e, sc, base, pc);
    var base2 := Base2(e, sc, base);
    match e
    case Lit(l) => LeadsAt(fetch, a, pc, h, GenLiteral(l, base), pc + SizeE(e, sc, base));
    case Var(x) => LeadsAt(fetch, a, pc, h, GetVar(x, sc, base), pc + SizeE(e, sc, base));
    case Assign(x, v) =>
      var n := SizeE(v, sc, base2);
      LeadsE(fetch, a, v, sc, base2, pc, h);
      LeadsAt(fetch, a, pc + n, h + 1, SetVar(x, sc, base), pc + SizeE(e, sc, base));
    case Update(x, op, v) =>
      var k, n := Len(GetVar(x, sc, base)), SizeE(v, sc, base2);
      LeadsAt(fetch, a, pc, h, GetVar(x, sc, base), pc + k);
      LeadsE(fetch, a, v, sc, base2, pc + k, h + 1);
      LeadsAt(fetch, a, pc + k + n, h + 2, Binary(op), pc + k + n + 1);
      LeadsAt(fetch, a, pc + k + n + 1, h + 1, SetVar(x, sc, base), pc + SizeE(e, sc, base));
    case NotE(o) =>
      LeadsE(fetch, a, o, sc, base, pc, h);
      LeadsAt(fetch, a, pc + SizeE(o, sc, base), h + 1, Not, pc + SizeE(e, sc, base));
    case NegE(o) =>
      LeadsE(fetch, a, o, sc, base, pc, h);
      LeadsAt(fetch, a, pc + SizeE(o, sc, base), h + 1, Neg, pc + SizeE(e, sc, base));
    case _ => LeadsInfix(fetch, a, e, sc, base, pc, h);
  }

  lemma {:induction false} LeadsInfix(fetch: Fetch, a: Point, e: Expr, sc: Scope, base: nat, pc: nat, h: nat)
    requires (e.Bin? || e.And? || e.Or?) && PartsLaid(fetch, e, sc, base, pc) && Leads(fetch, a, Point(pc, h))
    ensures Leads(fetch, a, Point(pc + SizeE(e, sc, base), h + 1))
    decreases e, 0
  {
    hide InstrsAt, Size, EncodeAll, Encode, GenE, Leads, At, LaidE;
    var base2 := Base2(e, sc, base);
    match e
    case Bin(op, l, r) =>
      var m, n := SizeE(l, sc, base), SizeE(r, sc, base2);
      LeadsE(fetch, a, l, sc, base, pc, h);
      LeadsE(fetch, a, r, sc, base2, pc + m, h + 1);
      LeadsAt(fetch, a, pc + m + n, h + 2, Binary(op), pc + m + n + 1);
    case And(l, r) =>
      var m, n := SizeE(l, sc, base), SizeE(r, sc, base2);
      LeadsE(fetch, a, l, sc, base, pc, h);
      LeadsAt(fetch, a, pc + m, h + 1, JumpIfFalse(1 + n), pc + m + 4 + n);
      LeadsAt(fetch, a, pc + m + 4 + n, h + 1, ToBool, pc + m + n + 5);
    case Or(l, r) =>
      var m, n := SizeE(l, sc, base), SizeE(r, sc, base2);
      LeadsE(fetch, a, l, sc, base, pc, h);
      LeadsAt(fetch, a, pc + m, h + 1, JumpIfFalse(3), pc + m + 3);
      LeadsAt(fetch, a, pc + m + 3, h + 1, Jump(1 + n), pc + m + 7 + n);
      LeadsAt(fetch, a, pc + m + 7 + n, h + 1, ToBool, pc + m + n + 8);
  }

  /* Statements. */

  /** The code of a statement stands at `pc`, with the breaks of the enclosing loop resolved. */
  predicate Laid(fetch: Fetch, s: Stmt, t: Site, pc: nat) {
    && CleanS(s) && Ok(s, t.sc, t.depth, t.back.Some?)
    && t.back.Some? == t.loopN.Some? && (t.back.Some? ==> t.back.value <= pc && t.brk >= 0)
    && InstrsAt(fetch, pc, Patch(Code(s, t), t.brk - pc))
  }

  function SizeS(s: Stmt, t: Site): nat {
    Size(Code(s, t))
  }

  lemma PlainLaid(fetch: Fetch, ins: seq<Instr>, d: int, pc: nat)
    requires InstrsAt(fetch, pc, Patch(ins, d)) && NoHoles(ins)
    ensures InstrsAt(fetch, pc, ins)
  {
    PatchNothing(ins, d);
  }

  lemma SeqLaid(fetch: Fetch, s: Stmt, t: Site, pc: nat)
    requires s.Seq? && Laid(fetch, s, t, pc)
    ensures var n := SizeS(s.first, t);
      && Laid(fetch, s.first, t, pc) && Laid(fetch, s.rest, NextSite(s.first, t, n), pc + n)
      && SizeS(s, t) == n + SizeS(s.rest, NextSite(s.first, t, n))
  {
    hide InstrsAt, Size, EncodeAll, Encode, Patch, NoHoles;
    var first := Code(s.first, t);
    var t1 := NextSite(s.first, t, Size(first));
    var rest := Code(s.rest, t1);
    PatchAppend(first, rest, t.brk - pc);
    PatchSize(first, t.brk - pc);
    EncodeAllAppend(first, rest);
    ApartAt(fetch, pc, Patch(first, t.brk - pc), Patch(rest, t.brk - pc - Size(first)));
  }

  /** A conditional in its parts: condition, test, branch, way round, other branch. */
  predicate IfLaid(fetch: Fetch, s: Stmt, t: Site, pc: nat)
    requires s.IfS?
  {
    var m, y, n := Size(CondCode(s, t)), SizeS(s.yes, YesSite(s, t)), SizeS(s.no, NoSite(s, t));
    var p1 := pc + m;
    var p2 := p1 + 4 + y;
    && LaidE(fetch, s.cond, t.sc, t.base, pc)
    && At(fetch, p1, JumpIfFalse(y + 4)) && At(fetch, p1 + 3, Pop)
    && Laid(fetch, s.yes, YesSite(s, t), p1 + 4)
    && At(fetch, p2, Jump(1 + n)) && At(fetch, p2 + 3, Pop)
    && Laid(fetch, s.no, NoSite(s, t), p2 + 4)
    && SizeS(s, t) == m + y + n + 8
  }

  lemma IfParts(fetch: Fetch, s: Stmt, t: Site, pc: nat)
    requires s.IfS? && Laid(fetch, s, t, pc)
    ensures IfLaid(fetch, s, t, pc)
  {
    hide InstrsAt, Size, EncodeAll, Encode, Patch, NoHoles, GenE, OkE, Clean, At;
    var cond, yes, no := CondCode(s, t), Code(s.yes, YesSite(s, t)), Code(s.no, NoSite(s, t));
    var d := t.brk - pc;
    var d1 := d - Size(cond) - 4;
    var d2 := d1 - Size(yes) - 4;
    NoHolesE(s.cond, t.sc, t.base);
    PatchBranches(cond, yes, no, d);
    PatchSize(yes, d1);
    PatchSize(no, d2);
    PatchSize(cond + Branches(yes, no), d);
    BranchesApart(fetch, pc, cond, Patch(yes, d1), Patch(no, d2));
  }

  lemma BranchesApart(fetch: Fetch, pc: nat, cond: seq<Instr>, yes: seq<Instr>, no: seq<Instr>)
    requires InstrsAt(fetch, pc, cond + Branches(yes, no))
    ensures var m, y, n := Size(cond), Size(yes), Size(no);
      && InstrsAt(fetch, pc, cond) && At(fetch, pc + m, JumpIfFalse(y + 4)) && At(fetch, pc + m + 3, Pop)
      && InstrsAt(fetch, pc + m + 4, yes) && At(fetch, pc + m + 4 + y, Jump(1 + n)) && At(fetch, pc + m + 7 + y, Pop)
      && InstrsAt(fetch, pc + m + 8 + y, no) && Size(cond + Branches(yes, no)) == m + y + n + 8
  {
    hide InstrsAt, Size, EncodeAll, Encode, At;
    var tests, skips := [JumpIfFalse(Size(yes) + 4), Pop], [Jump(1 + Size(no)), Pop];
    ApartAt(fetch, pc, cond, tests + (yes + (skips + no)));
    var p := pc + Size(cond);
    ApartAt(fetch, p, tests, yes + (skips + no));
    TwoAt(fetch, p, tests[0], Pop);
    ApartAt(fetch, p + 4, yes, skips + no);
    ApartAt(fetch, p + 4 + Size(yes), skips, no);
    TwoAt(fetch, p + 4 + Size(yes), skips[0], Pop);
  }

  /** A loop in its parts: condition, test, body, way back. */
  predicate WhileLaid(fetch: Fetch, s: Stmt, t: Site, pc: nat)
    requires s.WhileS?
  {
    var tb := BodySite(s, t, pc);
    var m, n := Size(CondCode(s, t)), SizeS(s.body, tb);
    var at := pc + m + 4;
    && LaidE(fetch, s.cond, t.sc, t.base, pc)
    && At(fetch, pc + m, JumpIfFalse(n + 4)) && At(fetch, pc + m + 3, Pop)
    && Laid(fetch, s.body, tb, at)
    && At(fetch, at + n, Loop(m + n + 7)) && At(fetch, at + n + 3, Pop)
    && SizeS(s, t) == m + n + 8 && tb.brk == at + n + 4 && LoopStart(at, tb) == pc
  }

  lemma WhileParts(fetch: Fetch, s: Stmt, t: Site, pc: nat)
    requires s.WhileS? && Laid(fetch, s, t, pc)
    ensures WhileLaid(fetch, s, t, pc)
  {
    hide InstrsAt, Size, EncodeAll, Encode, Patch, NoHoles, GenE, OkE, Clean, At;
    var cond, body := CondCode(s, t), Code(s.body, BodySite(s, t, pc));
    NoHolesE(s.cond, t.sc, t.base);
    LoopedHasNoHoles(cond, body);
    PlainLaid(fetch, Looped(cond, body), t.brk - pc, pc);
    LoopedApart(fetch, pc, cond, body);
  }

  lemma LoopedApart(fetch: Fetch, pc: nat, cond: seq<Instr>, body: seq<Instr>)
    requires InstrsAt(fetch, pc, Looped(cond, body))
    ensures var m, n := Size(cond), Size(body);
      var at := pc + m + 4;
      && InstrsAt(fetch, pc, cond) && At(fetch, pc + m, JumpIfFalse(n + 4)) && At(fetch, pc + m + 3, Pop)
      && InstrsAt(fetch, at, Patch(body, n + 4)) && At(fetch, at + n, Loop(m + n + 7)) && At(fetch, at + n + 3, Pop)
      && Size(Looped(cond, body)) == m + n + 8
  {
    hide InstrsAt, Size, EncodeAll, Encode, At, Patch;
    var inner := Patch(body, Size(body) + 4);
    var tests, ends := [JumpIfFalse(Size(body) + 4), Pop], [Loop(Size(cond) + Size(body) + 7), Pop];
    PatchSize(body, Size(body) + 4);
    ApartAt(fetch, pc, cond, tests + (inner + ends));
    var p := pc + Size(cond);
    ApartAt(fetch, p, tests, inner + ends);
    TwoAt(fetch, p, tests[0], Pop);
    ApartAt(fetch, p + 4, inner, ends);
    TwoAt(fetch, p + 4 + Size(body), ends[0], Pop);
  }

  /** A block and the pops that end it. */
  lemma BlockParts(fetch: Fetch, s: Stmt, t: Site, pc: nat)
    requires s.BlockS? && Laid(fetch, s, t, pc)
    ensures var tb, d := t.(depth := t.depth + 1), Declared(s.body, t.depth + 1);
      && Laid(fetch, s.body, tb, pc) && InstrsAt(fetch, pc + SizeS(s.body, tb), Pops(d))
      && SizeS(s, t) == SizeS(s.body, tb) + d
  {
    hide InstrsAt, Size, EncodeAll, Encode, Patch, NoHoles, Pops, Looped, Branches, GenE, ConstsE, Consts, After, Declared, LoopStart;
    var body, d := Code(s.body, t.(depth := t.depth + 1)), Declared(s.body, t.depth + 1);
    PatchAppend(body, Pops(d), t.brk - pc);
    PopsHaveNoHoles(d);
    PatchNothing(Pops(d), t.brk - pc - Size(body));
    PatchSize(body, t.brk - pc);
    EncodeAllAppend(body, Pops(d));
    ApartAt(fetch, pc, Patch(body, t.brk - pc), Pops(d));
  }

  lemma {:induction false} PopsAt(fetch: Fetch, pc: nat, d: nat, k: nat)
    requires InstrsAt(fetch, pc, Pops(d)) && k < d
    ensures At(fetch, pc + k, Pop)
    decreases k
  {
    hide Size, EncodeAll, Encode;
    assert Pops(d)[1..] == Pops(d - 1);
    if k > 0 {
      PopsAt(fetch, pc + 1, d - 1, k - 1);
    }
  }

  /** The scope and the base the initializer of a declaration is compiled with. */
  function InitScope(s: Stmt, t: Site): Scope
    requires s.LetS?
  {
    if t.depth == 0 then t.sc else t.sc + [Local(s.name, -1)]
  }

  function InitBase(t: Site): nat {
    if t.depth == 0 then t.base + 1 else t.base
  }

  /** Where a statement starts when the stack holds the locals known there. */
  function Begin(t: Site, pc: int): Point {
    Point(pc, |t.sc|)
  }

  /** Where it ends when the stack holds those known afterwards. */
  function Finish(s: Stmt, t: Site, pc: int): Point {
    Point(pc + SizeS(s, t), |After(s, t.sc, t.depth)|)
  }

  /** The points inside the code of a framed statement. */
  predicate In(s: Stmt, t: Site, pc: int, q: Point)
    decreases s
  {
    var h := |t.sc|;
    match s
    case Nop => false
    case Seq(a, b) =>
      var n := SizeS(a, t);
      In(a, t, pc, q) || (Falls(a) && In(b, NextSite(a, t, n), pc + n, q))
    case ExprS(e) => InE(e, t.sc, t.base, pc, h, q) || q == Point(pc + SizeE(e, t.sc, t.base), h + 1)
    case LetS(_, e) =>
      InE(e, InitScope(s, t), InitBase(t), pc, h, q) ||
      (t.depth == 0 && q == Point(pc + SizeE(e, t.sc, t.base + 1), h + 1))
    case IfS(c, y, no) =>
      var m, k := SizeE(c, t.sc, t.base), SizeS(y, YesSite(s, t));
      InE(c, t.sc, t.base, pc, h, q) || q == Point(pc + m, h + 1) || q == Point(pc + m + 3, h + 1) ||
      In(y, YesSite(s, t), pc + m + 4, q) || (Falls(y) && q == Point(pc + m + 4 + k, h)) ||
      q == Point(pc + m + 7 + k, h + 1) || In(no, NoSite(s, t), pc + m + 8 + k, q)
    case WhileS(c, b) =>
      var m, k := SizeE(c, t.sc, t.base), SizeS(b, BodySite(s, t, if pc >= 0 then pc else 0));
      InE(c, t.sc, t.base, pc, h, q) || q == Point(pc + m, h + 1) || q == Point(pc + m + 3, h + 1) ||
      In(b, BodySite(s, t, if pc >= 0 then pc else 0), pc + m + 4, q) ||
      (Falls(b) && q == Point(pc + m + 4 + k, h)) || q == Point(pc + m + 7 + k, h + 1)
    case BreakS => q == Point(pc, h)
    case SkipS => q == Point(pc, h)
    case BlockS(b) =>
      var tb, d := t.(depth := t.depth + 1), Declared(b, t.depth + 1);
      In(b, tb, pc, q) ||
      (Falls(b) && 0 <= q.pc - pc - SizeS(b, tb) < d && q.height == h + d - (q.pc - pc - SizeS(b, tb)))
  }

  /** Where control may be when it has left a framed statement. */
  predicate Exits(s: Stmt, t: Site, pc: nat, q: Point) {
    || (Falls(s) && q == Finish(s, t, pc))
    || (t.loopN.Some? && (q == Point(t.brk, t.loopN.value) || q == Point(LoopStart(pc, t), t.loopN.value)))
  }

  ghost predicate StaysS(fetch: Fetch, s: Stmt, t: Site, pc: nat) {
    forall q, r :: In(s, t, pc, q) && Moves(fetch, q, r) ==> In(s, t, pc, r) || Exits(s, t, pc, r)
  }

  predicate Enters(s: Stmt, t: Site, pc: nat) {
    In(s, t, pc, Begin(t, pc)) || (Falls(s) && Begin(t, pc) == Finish(s, t, pc))
  }

  lemma SameCount(s: Stmt, t: Site)
    ensures |After(s, t.sc, t.depth)| == |t.sc| + Declared(s, t.depth)
  {
    AfterExtends(s, t.sc, t.depth);
  }

  /** Every step inside a framed statement stays inside or leaves it as it should. */
  lemma {:induction false} ClosedS(fetch: Fetch, s: Stmt, t: Site, pc: nat)
    requires Laid(fetch, s, t, pc) && Framed(s, t.depth, |t.sc|, t.loopN)
    ensures StaysS(fetch, s, t, pc) && Enters(s, t, pc)
    decreases s
  {
    hide InstrsAt, Size, EncodeAll, Encode, Patch, Gen, GenE, StaysS, StaysE, Enters, Code, Ok, CleanS, In, InE, At, After, Declared, Consts, ConstsE;
    match s
    case Nop => ClosedNop(fetch, t, pc);
    case Seq(a, b) =>
      var t1 := NextSite(a, t, SizeS(a, t));
      SeqLaid(fetch, s, t, pc);
      SameCount(a, t);
      ClosedS(fetch, a, t, pc);
      if Falls(a) {
        ClosedS(fetch, b, t1, pc + SizeS(a, t));
      }
      ClosedSeq(fetch, s, t, pc);
    case ExprS(e) => ClosedExpr(fetch, e, t, pc);
    case LetS(x, e) => ClosedLet(fetch, s, t, pc);
    case IfS(c, y, no) =>
      var m, k := SizeE(c, t.sc, t.base), SizeS(y, YesSite(s, t));
      IfParts(fetch, s, t, pc);
      IfSites(s, t, pc);
      SameCount(y, t);
      SameCount(s, t);
      DeclaredIf(s, t.depth);
      ClosedS(fetch, y, YesSite(s, t), pc + m + 4);
      ClosedS(fetch, no, NoSite(s, t), pc + m + 8 + k);
      StartE(fetch, c, t.sc, t.base, pc, |t.sc|);
      ClosedE(fetch, c, t.sc, t.base, pc, |t.sc|);
      ClosedIf(fetch, s, t, pc);
    case WhileS(c, b) =>
      WhileParts(fetch, s, t, pc);
      WhileSites(s, t, pc);
      ClosedS(fetch, b, BodySite(s, t, pc), pc + SizeE(c, t.sc, t.base) + 4);
      StartE(fetch, c, t.sc, t.base, pc, |t.sc|);
      ClosedE(fetch, c, t.sc, t.base, pc, |t.sc|);
      ClosedWhile(fetch, s, t, pc);
    case BreakS => ClosedBreak(fetch, t, pc);
    case SkipS => ClosedSkip(fetch, t, pc);
    case BlockS(b) =>
      BlockParts(fetch, s, t, pc);
      SameCount(b, t.(depth := t.depth + 1));
      ClosedS(fetch, b, t.(depth := t.depth + 1), pc);
      ClosedBlock(fetch, s, t, pc);
  }

  lemma ClosedNop(fetch: Fetch, t: Site, pc: nat)
    ensures StaysS(fetch, Nop, t, pc) && Enters(Nop, t, pc)
  {
  }

  lemma EntersSeq(s: Stmt, t: Site, pc: nat)
    requires s.Seq? && Enters(s.first, t, pc)
    requires var n := SizeS(s.first, t);
      var t1 := NextSite(s.first, t, n);
      SizeS(s, t) == n + SizeS(s.rest, t1) && (Falls(s.first) ==> Enters(s.rest, t1, pc + n))
    ensures Enters(s, t, pc)
  {
    hide SizeS, Falls, Declared;
    SeqFalls(s);
  }

  lemma ClosedSeq(fetch: Fetch, s: Stmt, t: Site, pc: nat)
    requires s.Seq? && StaysS(fetch, s.first, t, pc) && Enters(s.first, t, pc)
    requires var n := SizeS(s.first, t);
      var t1 := NextSite(s.first, t, n);
      SizeS(s, t) == n + SizeS(s.rest, t1) &&
      (Falls(s.first) ==> StaysS(fetch, s.rest, t1, pc + n) && Enters(s.rest, t1, pc + n))
    ensures StaysS(fetch, s, t, pc) && Enters(s, t, pc)
  {
    hide In, Moves, SizeS, Falls, Declared, After, Enters, Exits, StaysS, Laid;
    EntersSeq(s, t, pc);
    forall q, r | In(s, t, pc, q) && Moves(fetch, q, r)
      ensures In(s, t, pc, r) || Exits(s, t, pc, r)
    {
      InSeq(s, t, pc, q);
      InSeq(s, t, pc, r);
      SeqStep(fetch, s, t, pc, q, r);
    }
    Stays(fetch, s, t, pc);
  }

  lemma Stays(fetch: Fetch, s: Stmt, t: Site, pc: nat)
    requires forall q, r :: In(s, t, pc, q) && Moves(fetch, q, r) ==> In(s, t, pc, r) || Exits(s, t, pc, r)
    ensures StaysS(fetch, s, t, pc)
  {
  }

  lemma SeqStep(fetch: Fetch, s: Stmt, t: Site, pc: nat, q: Point, r: Point)
    requires s.Seq? && StaysS(fetch, s.first, t, pc) && Moves(fetch, q, r)
    requires var n := SizeS(s.first, t);
      var t1 := NextSite(s.first, t, n);
      && SizeS(s, t) == n + SizeS(s.rest, t1)
      && (Falls(s.first) ==> StaysS(fetch, s.rest, t1, pc + n) && Enters(s.rest, t1, pc + n))
      && (In(s.first, t, pc, q) || (Falls(s.first) && In(s.rest, t1, pc + n, q)))
    ensures In(s.first, t, pc, r) || Exits(s, t, pc, r)
      || (Falls(s.first) && In(s.rest, NextSite(s.first, t, SizeS(s.first, t)), pc + SizeS(s.first, t), r))
  {
    hide In, Moves, SizeS, Falls, Declared;
    SeqFalls(s);
  }

  lemma SeqFalls(s: Stmt)
    requires s.Seq?
    ensures Falls(s) <==> Falls(s.first) && Falls(s.rest)
  {
  }

  lemma ClosedExpr(fetch: Fetch, e: Expr, t: Site, pc: nat)
    requires Laid(fetch, ExprS(e), t, pc)
    ensures StaysS(fetch, ExprS(e), t, pc) && Enters(ExprS(e), t, pc)
  {
    hide InstrsAt, Size, EncodeAll, Encode, Patch, NoHoles, GenE, InE, LaidE;
    var code := GenE(e, t.sc, t.base);
    NoHolesE(e, t.sc, t.base);
    NoHolesLast(code, Pop);
    PlainLaid(fetch, code + [Pop], t.brk - pc, pc);
    LastAt(fetch, pc, code, Pop);
    assert LaidE(fetch, e, t.sc, t.base, pc) by { LaidIs(fetch, e, t.sc, t.base, pc); }
    StartE(fetch, e, t.sc, t.base, pc, |t.sc|);
    ClosedE(fetch, e, t.sc, t.base, pc, |t.sc|);
  }

  lemma LaidIs(fetch: Fetch, e: Expr, sc: Scope, base: nat, pc: nat)
    requires Clean(e) && InstrsAt(fetch, pc, GenE(e, sc, base))
    ensures LaidE(fetch, e, sc, base, pc)
  {
  }

  /** An initializer, and in a main program the definition of the global. */
  predicate LetLaid(fetch: Fetch, s: Stmt, t: Site, pc: nat)
    requires s.LetS?
  {
    var n := SizeE(s.init, InitScope(s, t), InitBase(t));
    && LaidE(fetch, s.init, InitScope(s, t), InitBase(t), pc)
    && (if t.depth == 0 then At(fetch, pc + n, DefGlobal(0, t.base)) && SizeS(s, t) == n + Len(DefGlobal(0, t.base))
        else SizeS(s, t) == n)
  }

  lemma LetParts(fetch: Fetch, s: Stmt, t: Site, pc: nat)
    requires s.LetS? && Laid(fetch, s, t, pc)
    ensures LetLaid(fetch, s, t, pc)
  {
    hide InstrsAt, Size, EncodeAll, Encode, Patch, NoHoles, GenE, At, Len;
    var sc, base := InitScope(s, t), InitBase(t);
    var code := GenE(s.init, sc, base);
    NoHolesE(s.init, sc, base);
    if t.depth == 0 {
      NoHolesLast(code, DefGlobal(0, t.base));
      PlainLaid(fetch, code + [DefGlobal(0, t.base)], t.brk - pc, pc);
      LastAt(fetch, pc, code, DefGlobal(0, t.base));
    } else {
      PlainLaid(fetch, code, t.brk - pc, pc);
    }
  }

  lemma ClosedLet(fetch: Fetch, s: Stmt, t: Site, pc: nat)
    requires s.LetS? && Laid(fetch, s, t, pc)
    ensures StaysS(fetch, s, t, pc) && Enters(s, t, pc)
  {
    hide Laid, InstrsAt, Size, EncodeAll, Encode, Patch, NoHoles, GenE, InE, LaidE, SizeE, SizeS;
    LetParts(fetch, s, t, pc);
    StartE(fetch, s.init, InitScope(s, t), InitBase(t), pc, |t.sc|);
    ClosedE(fetch, s.init, InitScope(s, t), InitBase(t), pc, |t.sc|);
  }

  lemma ClosedBreak(fetch: Fetch, t: Site, pc: nat)
    requires Laid(fetch, BreakS, t, pc) && t.loopN == Some(|t.sc|)
    ensures StaysS(fetch, BreakS, t, pc) && Enters(BreakS, t, pc)
  {
    BreakAt(fetch, t, pc);
  }

  lemma BreakAt(fetch: Fetch, t: Site, pc: nat)
    requires Laid(fetch, BreakS, t, pc)
    ensures At(fetch, pc, Jump(t.brk - pc - 3))
  {
    var jump := Jump(t.brk - pc - 3);
    assert Patch([BreakHole], t.brk - pc) == [jump];
    OneAt(fetch, pc, jump);
  }

  lemma SkipAt(fetch: Fetch, t: Site, pc: nat)
    requires Laid(fetch, SkipS, t, pc)
    ensures At(fetch, pc, Loop(t.back.value + 3))
  {
    var loop := Loop(t.back.value + 3);
    assert Patch([loop], t.brk - pc) == [loop];
    OneAt(fetch, pc, loop);
  }

  lemma ClosedSkip(fetch: Fetch, t: Site, pc: nat)
    requires Laid(fetch, SkipS, t, pc) && t.loopN == Some(|t.sc|)
    ensures StaysS(fetch, SkipS, t, pc) && Enters(SkipS, t, pc)
  {
    SkipAt(fetch, t, pc);
  }

  lemma InIf(s: Stmt, t: Site, pc: int, q: Point)
    requires s.IfS?
    ensures var h, m, k := |t.sc|, SizeE(s.cond, t.sc, t.base), SizeS(s.yes, YesSite(s, t));
      In(s, t, pc, q) <==>
        InE(s.cond, t.sc, t.base, pc, h, q) || q == Point(pc + m, h + 1) || q == Point(pc + m + 3, h + 1) ||
        In(s.yes, YesSite(s, t), pc + m + 4, q) || (Falls(s.yes) && q == Point(pc + m + 4 + k, h)) ||
        q == Point(pc + m + 7 + k, h + 1) || In(s.no, NoSite(s, t), pc + m + 8 + k, q)
  {
    hide InE, SizeE, SizeS, YesSite, NoSite;
  }

  /** What is known of a conditional whose branches are closed. */
  ghost predicate IfClosed(fetch: Fetch, s: Stmt, t: Site, pc: nat)
    requires s.IfS?
  {
    var m, k, n := SizeE(s.cond, t.sc, t.base), SizeS(s.yes, YesSite(s, t)), SizeS(s.no, NoSite(s, t));
    && StaysE(fetch, s.cond, t.sc, t.base, pc, |t.sc|) && InE(s.cond, t.sc, t.base, pc, |t.sc|, Point(pc, |t.sc|))
    && At(fetch, pc + m, JumpIfFalse(k + 4)) && At(fetch, pc + m + 3, Pop)
    && At(fetch, pc + m + 4 + k, Jump(1 + n)) && At(fetch, pc + m + 7 + k, Pop)
    && SizeS(s, t) == m + k + n + 8
    && StaysS(fetch, s.yes, YesSite(s, t), pc + m + 4) && Enters(s.yes, YesSite(s, t), pc + m + 4)
    && StaysS(fetch, s.no, NoSite(s, t), pc + m + 8 + k) && Enters(s.no, NoSite(s, t), pc + m + 8 + k)
    && SameLoop(t, pc, YesSite(s, t), pc + m + 4) && SameLoop(t, pc, NoSite(s, t), pc + m + 8 + k)
    && |After(s.yes, t.sc, t.depth)| == |t.sc|
    && (Falls(s.yes) ==> |After(s, t.sc, t.depth)| == |t.sc|)
    && After(s, t.sc, t.depth) == After(s.no, t.sc, t.depth)
  }

  /** Two places with the same locals in the same loop. */
  predicate SameLoop(t: Site, pc: nat, u: Site, at: nat) {
    u.sc == t.sc && u.depth == t.depth && u.loopN == t.loopN && u.brk == t.brk && (t.loopN.Some? ==> LoopStart(at, u) == LoopStart(pc, t))
  }

  lemma DeclaredIf(s: Stmt, depth: nat)
    requires s.IfS?
    ensures Declared(s, depth) == Declared(s.yes, depth) + Declared(s.no, depth)
  {
  }

  lemma IfSites(s: Stmt, t: Site, pc: nat)
    requires s.IfS? && Declared(s.yes, t.depth) == 0 && t.back.Some? == t.loopN.Some?
    ensures var m, k := SizeE(s.cond, t.sc, t.base), SizeS(s.yes, YesSite(s, t));
      SameLoop(t, pc, YesSite(s, t), pc + m + 4) && SameLoop(t, pc, NoSite(s, t), pc + m + 8 + k)
    ensures After(s.yes, t.sc, t.depth) == t.sc && After(s, t.sc, t.depth) == After(s.no, t.sc, t.depth)
  {
    hide Size, Gen, GenE, Consts, ConstsE;
    AfterExtends(s.yes, t.sc, t.depth);
  }

  /** A step by an instruction that stands there. */
  lemma MovesAt(fetch: Fetch, pc: nat, h: int, i: Instr, r: Point)
    requires At(fetch, pc, i) && Moves(fetch, Point(pc, h), r)
    ensures Targets(i, pc + Len(i), r.pc) && r.height == h - Takes(i) + Puts(i)
  {
    hide Len, Encode;
  }

  lemma IfFalls(s: Stmt)
    requires s.IfS?
    ensures Falls(s) <==> Falls(s.yes) || Falls(s.no)
  {
  }

  lemma IfYesStep(fetch: Fetch, s: Stmt, t: Site, pc: nat, q: Point, r: Point)
    requires s.IfS? && IfClosed(fetch, s, t, pc) && Moves(fetch, q, r)
    requires In(s.yes, YesSite(s, t), pc + SizeE(s.cond, t.sc, t.base) + 4, q)
    ensures In(s, t, pc, r) || Exits(s, t, pc, r)
  {
    hide In, InE, SizeE, SizeS, Moves, At, StaysE, Declared, Gen, GenE, Code, CondCode, Size, After, YesSite, NoSite, LoopStart, Consts, ConstsE, Encode, EncodeAll;
    InIf(s, t, pc, r);
    IfFalls(s);
  }

  lemma IfNoStep(fetch: Fetch, s: Stmt, t: Site, pc: nat, q: Point, r: Point)
    requires s.IfS? && IfClosed(fetch, s, t, pc) && Moves(fetch, q, r)
    requires In(s.no, NoSite(s, t), pc + SizeE(s.cond, t.sc, t.base) + 8 + SizeS(s.yes, YesSite(s, t)), q)
    ensures In(s, t, pc, r) || Exits(s, t, pc, r)
  {
    hide In, InE, SizeE, SizeS, Moves, At, StaysE, Declared, Gen, GenE, Code, CondCode, Size, After, YesSite, NoSite, LoopStart, Consts, ConstsE, Encode, EncodeAll;
    InIf(s, t, pc, r);
    IfFalls(s);
  }

  lemma IfOwnStep(fetch: Fetch, s: Stmt, t: Site, pc: nat, q: Point, r: Point)
    requires s.IfS? && IfClosed(fetch, s, t, pc) && Moves(fetch, q, r)
    requires var h, m, k := |t.sc|, SizeE(s.cond, t.sc, t.base), SizeS(s.yes, YesSite(s, t));
      q == Point(pc + m, h + 1) || q == Point(pc + m + 3, h + 1) || (Falls(s.yes) && q == Point(pc + m + 4 + k, h)) ||
      q == Point(pc + m + 7 + k, h + 1)
    ensures In(s, t, pc, r) || Exits(s, t, pc, r)
  {
    hide In, InE, SizeE, SizeS, Moves, At, StaysE, StaysS, Declared, Gen, GenE, Code, CondCode, Size, After, YesSite, NoSite, BodySite, LoopStart, Consts, ConstsE, Encode, EncodeAll;
    var h, m, k, n := |t.sc|, SizeE(s.cond, t.sc, t.base), SizeS(s.yes, YesSite(s, t)), SizeS(s.no, NoSite(s, t));
    InIf(s, t, pc, r);
    IfFalls(s);
    if q == Point(pc + m, h + 1) {
      MovesAt(fetch, pc + m, h + 1, JumpIfFalse(k + 4), r);
    } else if q == Point(pc + m + 3, h + 1) {
      MovesAt(fetch, pc + m + 3, h + 1, Pop, r);
    } else if q == Point(pc + m + 7 + k, h + 1) {
      MovesAt(fetch, pc + m + 7 + k, h + 1, Pop, r);
    } else {
      MovesAt(fetch, pc + m + 4 + k, h, Jump(1 + n), r);
    }
  }

  lemma ClosedIf(fetch: Fetch, s: Stmt, t: Site, pc: nat)
    requires s.IfS? && IfClosed(fetch, s, t, pc)
    ensures StaysS(fetch, s, t, pc) && Enters(s, t, pc)
  {
    hide In, InE, SizeE, SizeS, Moves, At, Exits, Declared, Gen, GenE, Code, CondCode, Size, After, YesSite, NoSite, LoopStart, Consts, ConstsE, Encode, EncodeAll;
    InIf(s, t, pc, Begin(t, pc));
    forall q, r | In(s, t, pc, q) && Moves(fetch, q, r)
      ensures In(s, t, pc, r) || Exits(s, t, pc, r)
    {
      InIf(s, t, pc, q);
      InIf(s, t, pc, r);
      var m, k := SizeE(s.cond, t.sc, t.base), SizeS(s.yes, YesSite(s, t));
      if In(s.yes, YesSite(s, t), pc + m + 4, q) {
        IfYesStep(fetch, s, t, pc, q, r);
      } else if In(s.no, NoSite(s, t), pc + m + 8 + k, q) {
        IfNoStep(fetch, s, t, pc, q, r);
      } else if !InE(s.cond, t.sc, t.base, pc, |t.sc|, q) {
        IfOwnStep(fetch, s, t, pc, q, r);
      }
    }
  }

  lemma InWhile(s: Stmt, t: Site, pc: nat, q: Point)
    requires s.WhileS?
    ensures var h, m, k := |t.sc|, SizeE(s.cond, t.sc, t.base), SizeS(s.body, BodySite(s, t, pc));
      In(s, t, pc, q) <==>
        InE(s.cond, t.sc, t.base, pc, h, q) || q == Point(pc + m, h + 1) || q == Point(pc + m + 3, h + 1) ||
        In(s.body, BodySite(s, t, pc), pc + m + 4, q) ||
        (Falls(s.body) && q == Point(pc + m + 4 + k, h)) || q == Point(pc + m + 7 + k, h + 1)
  {
    hide InE, SizeE, SizeS, BodySite;
  }

  /** What is known of a loop whose body is closed. */
  ghost predicate WhileClosed(fetch: Fetch, s: Stmt, t: Site, pc: nat)
    requires s.WhileS?
  {
    var m, tb := SizeE(s.cond, t.sc, t.base), BodySite(s, t, pc);
    var k, at := SizeS(s.body, tb), pc + m + 4;
    && StaysE(fetch, s.cond, t.sc, t.base, pc, |t.sc|) && InE(s.cond, t.sc, t.base, pc, |t.sc|, Point(pc, |t.sc|))
    && At(fetch, pc + m, JumpIfFalse(k + 4)) && At(fetch, pc + m + 3, Pop)
    && At(fetch, at + k, Loop(m + k + 7)) && At(fetch, at + k + 3, Pop)
    && SizeS(s, t) == m + k + 8
    && StaysS(fetch, s.body, tb, at) && Enters(s.body, tb, at)
    && tb.sc == t.sc && tb.loopN == Some(|t.sc|) && tb.brk == at + k + 4 && LoopStart(at, tb) == pc
    && |After(s.body, t.sc, t.depth)| == |t.sc| && After(s, t.sc, t.depth) == After(s.body, t.sc, t.depth) && tb.depth == t.depth
  }

  lemma WhileSites(s: Stmt, t: Site, pc: nat)
    requires s.WhileS? && Declared(s.body, t.depth) == 0
    ensures var tb := BodySite(s, t, pc); tb.sc == t.sc && tb.depth == t.depth && tb.loopN == Some(|t.sc|)
    ensures |After(s.body, t.sc, t.depth)| == |t.sc| && After(s, t.sc, t.depth) == After(s.body, t.sc, t.depth)
  {
    hide Size, Gen, GenE, Consts, ConstsE;
    AfterExtends(s.body, t.sc, t.depth);
  }

  lemma WhileBodyStep(fetch: Fetch, s: Stmt, t: Site, pc: nat, q: Point, r: Point)
    requires s.WhileS? && WhileClosed(fetch, s, t, pc) && Moves(fetch, q, r)
    requires In(s.body, BodySite(s, t, pc), pc + SizeE(s.cond, t.sc, t.base) + 4, q)
    ensures In(s, t, pc, r) || Exits(s, t, pc, r)
  {
    hide In, InE, SizeE, SizeS, Moves, At, StaysE, Declared, Gen, GenE, Code, CondCode, Size, After, BodySite, LoopStart, Consts, ConstsE, Encode, EncodeAll;
    InWhile(s, t, pc, r);
  }

  lemma WhileOwnStep(fetch: Fetch, s: Stmt, t: Site, pc: nat, q: Point, r: Point)
    requires s.WhileS? && WhileClosed(fetch, s, t, pc) && Moves(fetch, q, r)
    requires var h, m, k := |t.sc|, SizeE(s.cond, t.sc, t.base), SizeS(s.body, BodySite(s, t, pc));
      q == Point(pc + m, h + 1) || q == Point(pc + m + 3, h + 1) || (Falls(s.body) && q == Point(pc + m + 4 + k, h)) ||
      q == Point(pc + m + 7 + k, h + 1)
    ensures In(s, t, pc, r) || Exits(s, t, pc, r)
  {
    hide In, InE, SizeE, SizeS, Moves, At, StaysE, StaysS, Declared, Gen, GenE, Code, CondCode, Size, After, YesSite, NoSite, BodySite, LoopStart, Consts, ConstsE, Encode, EncodeAll;
    var h, m, k := |t.sc|, SizeE(s.cond, t.sc, t.base), SizeS(s.body, BodySite(s, t, pc));
    InWhile(s, t, pc, r);
    if q == Point(pc + m, h + 1) {
      MovesAt(fetch, pc + m, h + 1, JumpIfFalse(k + 4), r);
    } else if q == Point(pc + m + 3, h + 1) {
      MovesAt(fetch, pc + m + 3, h + 1, Pop, r);
    } else if q == Point(pc + m + 7 + k, h + 1) {
      MovesAt(fetch, pc + m + 7 + k, h + 1, Pop, r);
    } else {
      MovesAt(fetch, pc + m + 4 + k, h, Loop(m + k + 7), r);
    }
  }

  lemma ClosedWhile(fetch: Fetch, s: Stmt, t: Site, pc: nat)
    requires s.WhileS? && WhileClosed(fetch, s, t, pc)
    ensures StaysS(fetch, s, t, pc) && Enters(s, t, pc)
  {
    hide In, InE, SizeE, SizeS, Moves, At, Exits, Declared, Gen, GenE, Code, CondCode, Size, After, BodySite, LoopStart, Consts, ConstsE, Encode, EncodeAll;
    InWhile(s, t, pc, Begin(t, pc));
    forall q, r | In(s, t, pc, q) && Moves(fetch, q, r)
      ensures In(s, t, pc, r) || Exits(s, t, pc, r)
    {
      InWhile(s, t, pc, q);
      InWhile(s, t, pc, r);
      var m := SizeE(s.cond, t.sc, t.base);
      if In(s.body, BodySite(s, t, pc), pc + m + 4, q) {
        WhileBodyStep(fetch, s, t, pc, q, r);
      } else if !InE(s.cond, t.sc, t.base, pc, |t.sc|, q) {
        WhileOwnStep(fetch, s, t, pc, q, r);
      }
    }
  }

  lemma InBlock(s: Stmt, t: Site, pc: int, q: Point)
    requires s.BlockS?
    ensures var tb, d := t.(depth := t.depth + 1), Declared(s.body, t.depth + 1);
      In(s, t, pc, q) <==>
        In(s.body, tb, pc, q) ||
        (Falls(s.body) && 0 <= q.pc - pc - SizeS(s.body, tb) < d && q.height == |t.sc| + d - (q.pc - pc - SizeS(s.body, tb)))
  {
    hide SizeS, Declared;
  }

  lemma BlockStep(fetch: Fetch, s: Stmt, t: Site, pc: nat, q: Point, r: Point)
    requires s.BlockS? && Moves(fetch, q, r) && In(s, t, pc, q)
    requires var tb, d := t.(depth := t.depth + 1), Declared(s.body, t.depth + 1);
      && |After(s.body, tb.sc, tb.depth)| == |t.sc| + d && StaysS(fetch, s.body, tb, pc)
      && InstrsAt(fetch, pc + SizeS(s.body, tb), Pops(d)) && SizeS(s, t) == SizeS(s.body, tb) + d
    ensures In(s, t, pc, r) || Exits(s, t, pc, r)
  {
    hide In, SizeS, Moves, At, Declared, InstrsAt, Pops, After, Falls, Gen, Code, Size, Encode, EncodeAll;
    InBlock(s, t, pc, q);
    InBlock(s, t, pc, r);
    BlockFalls(s, t);
    var tb, d := t.(depth := t.depth + 1), Declared(s.body, t.depth + 1);
    if !In(s.body, tb, pc, q) {
      var at := pc + SizeS(s.body, tb);
      PopsAt(fetch, at, d, q.pc - at);
      MovesAt(fetch, q.pc, q.height, Pop, r);
    }
  }

  lemma BlockFalls(s: Stmt, t: Site)
    requires s.BlockS?
    ensures Falls(s) == Falls(s.body) && After(s, t.sc, t.depth) == t.sc
  {
  }

  lemma ClosedBlock(fetch: Fetch, s: Stmt, t: Site, pc: nat)
    requires s.BlockS?
    requires var tb, d := t.(depth := t.depth + 1), Declared(s.body, t.depth + 1);
      && |After(s.body, tb.sc, tb.depth)| == |t.sc| + d
      && StaysS(fetch, s.body, tb, pc) && Enters(s.body, tb, pc)
      && InstrsAt(fetch, pc + SizeS(s.body, tb), Pops(d)) && SizeS(s, t) == SizeS(s.body, tb) + d
    ensures StaysS(fetch, s, t, pc) && Enters(s, t, pc)
  {
    hide In, SizeS, Moves, Exits, Declared, InstrsAt, Pops, After, Falls, Gen, Code, Size, Encode, EncodeAll;
    InBlock(s, t, pc, Begin(t, pc));
    BlockFalls(s, t);
    forall q, r | In(s, t, pc, q) && Moves(fetch, q, r)
      ensures In(s, t, pc, r) || Exits(s, t, pc, r)
    {
      BlockStep(fetch, s, t, pc, q, r);
    }
  }

  /* Statement boundaries. */

  /** The places in the code of a statement where a statement starts or ends, and the locals known there. */
  predicate Bound(s: Stmt, t: Site, pc: nat, b: int, count: nat)
    decreases s
  {
    || (b == pc && count == |t.sc|)
    || (b == pc + SizeS(s, t) && count == |After(s, t.sc, t.depth)|)
    || InnerBound(s, t, pc, b, count)
  }

  predicate InnerBound(s: Stmt, t: Site, pc: nat, b: int, count: nat)
    decreases s, 0
  {
    match s
    case Seq(first, rest) =>
      var n := SizeS(first, t);
      Bound(first, t, pc, b, count) || Bound(rest, NextSite(first, t, n), pc + n, b, count)
    case IfS(c, y, no) =>
      var m, k := SizeE(c, t.sc, t.base), SizeS(y, YesSite(s, t));
      Bound(y, YesSite(s, t), pc + m + 4, b, count) || Bound(no, NoSite(s, t), pc + m + 8 + k, b, count)
    case WhileS(c, body) => Bound(body, BodySite(s, t, pc), pc + SizeE(c, t.sc, t.base) + 4, b, count)
    case BlockS(body) => Bound(body, t.(depth := t.depth + 1), pc, b, count)
    case _ => false
  }

  /** Only statements that declare nothing have no code. */
  lemma {:induction false} NoCodeNoLocals(fetch: Fetch, s: Stmt, t: Site, pc: nat)
    requires Laid(fetch, s, t, pc) && SizeS(s, t) == 0
    ensures After(s, t.sc, t.depth) == t.sc && Falls(s)
    decreases s
  {
    hide InstrsAt, Size, EncodeAll, Encode, Patch, Gen, GenE, Code, Ok, CleanS, Consts, ConstsE, LaidE, At;
    match s
    case Seq(a, b) =>
      SeqLaid(fetch, s, t, pc);
      NoCodeNoLocals(fetch, a, t, pc);
      NoCodeNoLocals(fetch, b, NextSite(a, t, SizeS(a, t)), pc + SizeS(a, t));
    case LetS(x, e) =>
      LetParts(fetch, s, t, pc);
      SizePositive(e, InitScope(s, t), InitBase(t));
    case IfS(c, y, no) => IfParts(fetch, s, t, pc);
    case WhileS(c, b) => WhileParts(fetch, s, t, pc);
    case BreakS => OneInstr(s, t);
    case SkipS => LaidSkip(fetch, t, pc); OneInstr(s, t);
    case BlockS(b) =>
      BlockParts(fetch, s, t, pc);
      NoCodeNoLocals(fetch, b, t.(depth := t.depth + 1), pc);
    case _ =>
  }

  lemma LaidSkip(fetch: Fetch, t: Site, pc: nat)
    requires Laid(fetch, SkipS, t, pc)
    ensures t.back.Some?
  {
  }

  lemma OneInstr(s: Stmt, t: Site)
    requires s.BreakS? || (s.SkipS? && t.back.Some?)
    ensures SizeS(s, t) == 3
  {
  }

  lemma {:induction false} BoundRange(fetch: Fetch, s: Stmt, t: Site, pc: nat, b: int, count: nat)
    requires Laid(fetch, s, t, pc) && Bound(s, t, pc, b, count)
    ensures pc <= b <= pc + SizeS(s, t)
    decreases s
  {
    hide InstrsAt, Size, EncodeAll, Encode, Patch, Gen, GenE, Code, Ok, CleanS, Consts, ConstsE, LaidE, At, Laid, After, Bound, YesSite, NoSite, BodySite, NextSite;
    BoundIs(s, t, pc, b, count);
    match s
    case Seq(first, rest) =>
      SeqLaid(fetch, s, t, pc);
      var n := SizeS(first, t);
      if Bound(first, t, pc, b, count) {
        BoundRange(fetch, first, t, pc, b, count);
      } else if Bound(rest, NextSite(first, t, n), pc + n, b, count) {
        BoundRange(fetch, rest, NextSite(first, t, n), pc + n, b, count);
      }
    case IfS(c, y, no) =>
      IfParts(fetch, s, t, pc);
      var m, k := SizeE(c, t.sc, t.base), SizeS(y, YesSite(s, t));
      if Bound(y, YesSite(s, t), pc + m + 4, b, count) {
        BoundRange(fetch, y, YesSite(s, t), pc + m + 4, b, count);
      } else if Bound(no, NoSite(s, t), pc + m + 8 + k, b, count) {
        BoundRange(fetch, no, NoSite(s, t), pc + m + 8 + k, b, count);
      }
    case WhileS(c, body) =>
      WhileParts(fetch, s, t, pc);
      var at := pc + SizeE(c, t.sc, t.base) + 4;
      if Bound(body, BodySite(s, t, pc), at, b, count) {
        BoundRange(fetch, body, BodySite(s, t, pc), at, b, count);
      }
    case BlockS(body) =>
      BlockParts(fetch, s, t, pc);
      if Bound(body, t.(depth := t.depth + 1), pc, b, count) {
        BoundRange(fetch, body, t.(depth := t.depth + 1), pc, b, count);
      }
    case _ =>
  }

  lemma BoundIs(s: Stmt, t: Site, pc: nat, b: int, count: nat)
    ensures Bound(s, t, pc, b, count) <==>
      (b == pc && count == |t.sc|) || (b == pc + SizeS(s, t) && count == |After(s, t.sc, t.depth)|) || InnerBound(s, t, pc, b, count)
  {
    hide InnerBound, SizeS, After;
  }

  /** At its start a statement has one count, and at its end. */
  lemma {:induction false} BoundEnds(fetch: Fetch, s: Stmt, t: Site, pc: nat, b: int, count: nat)
    requires Laid(fetch, s, t, pc) && Bound(s, t, pc, b, count)
    ensures b == pc ==> count == |t.sc|
    ensures b == pc + SizeS(s, t) ==> count == |After(s, t.sc, t.depth)|
    decreases s
  {
    hide InstrsAt, Size, EncodeAll, Encode, Patch, Gen, GenE, Code, Ok, CleanS, Consts, ConstsE, LaidE, At, Laid, Bound, YesSite, NoSite, BodySite, NextSite;
    BoundIs(s, t, pc, b, count);
    if SizeS(s, t) == 0 {
      NoCodeNoLocals(fetch, s, t, pc);
    }
    match s
    case Seq(first, rest) => if InnerBound(s, t, pc, b, count) { SeqEnds(fetch, s, t, pc, b, count); }
    case IfS(c, y, no) => if InnerBound(s, t, pc, b, count) { IfEnds(fetch, s, t, pc, b, count); }
    case WhileS(c, body) =>
      WhileParts(fetch, s, t, pc);
      var at := pc + SizeE(c, t.sc, t.base) + 4;
      if Bound(body, BodySite(s, t, pc), at, b, count) {
        BoundRange(fetch, body, BodySite(s, t, pc), at, b, count);
      }
    case BlockS(body) => if InnerBound(s, t, pc, b, count) { BlockEnds(fetch, s, t, pc, b, count); }
    case _ =>
  }

  lemma SeqBound(s: Stmt, t: Site, pc: nat, b: int, count: nat)
    requires s.Seq?
    ensures var n := SizeS(s.first, t);
      var t1 := NextSite(s.first, t, n);
      && (InnerBound(s, t, pc, b, count) <==> Bound(s.first, t, pc, b, count) || Bound(s.rest, t1, pc + n, b, count))
      && After(s, t.sc, t.depth) == After(s.rest, t1.sc, t.depth) && t1.depth == t.depth && t1.sc == After(s.first, t.sc, t.depth)
  {
    hide Bound, SizeS, Consts;
  }

  lemma IfBound(s: Stmt, t: Site, pc: nat, b: int, count: nat)
    requires s.IfS?
    ensures var m, k, u := SizeE(s.cond, t.sc, t.base), SizeS(s.yes, YesSite(s, t)), NoSite(s, t);
      && (InnerBound(s, t, pc, b, count) <==>
            Bound(s.yes, YesSite(s, t), pc + m + 4, b, count) || Bound(s.no, u, pc + m + 8 + k, b, count))
      && After(s, t.sc, t.depth) == After(s.no, u.sc, t.depth) && u.depth == t.depth && YesSite(s, t).sc == t.sc
      && u.sc == After(s.yes, t.sc, t.depth)
  {
    hide Bound, SizeS, SizeE, Consts, ConstsE, CondCode, Size, Code;
  }

  lemma BlockBound(s: Stmt, t: Site, pc: nat, b: int, count: nat)
    requires s.BlockS?
    ensures InnerBound(s, t, pc, b, count) <==> Bound(s.body, t.(depth := t.depth + 1), pc, b, count)
  {
    hide Bound;
  }

  lemma WhileBound(s: Stmt, t: Site, pc: nat, b: int, count: nat)
    requires s.WhileS?
    ensures InnerBound(s, t, pc, b, count) <==>
      Bound(s.body, BodySite(s, t, pc), pc + SizeE(s.cond, t.sc, t.base) + 4, b, count)
  {
    hide Bound, SizeE, BodySite;
  }

  /** The sizes and places of the branches alone. */
  lemma IfSizes(fetch: Fetch, s: Stmt, t: Site, pc: nat)
    requires s.IfS? && Laid(fetch, s, t, pc)
    ensures var m, k, n := SizeE(s.cond, t.sc, t.base), SizeS(s.yes, YesSite(s, t)), SizeS(s.no, NoSite(s, t));
      && Laid(fetch, s.yes, YesSite(s, t), pc + m + 4) && Laid(fetch, s.no, NoSite(s, t), pc + m + 8 + k)
      && SizeS(s, t) == m + k + n + 8 && m >= 1
  {
    hide Laid, LaidE, At, GenE, Size;
    IfParts(fetch, s, t, pc);
    SizePositive(s.cond, t.sc, t.base);
  }

  lemma WhileSizes(fetch: Fetch, s: Stmt, t: Site, pc: nat)
    requires s.WhileS? && Laid(fetch, s, t, pc)
    ensures var tb, m := BodySite(s, t, pc), SizeE(s.cond, t.sc, t.base);
      && Laid(fetch, s.body, tb, pc + m + 4) && SizeS(s, t) == m + SizeS(s.body, tb) + 8 && m >= 1
      && tb.brk == pc + SizeS(s, t) && LoopStart(pc + m + 4, tb) == pc
  {
    hide Laid, LaidE, At, GenE, Size;
    WhileParts(fetch, s, t, pc);
    SizePositive(s.cond, t.sc, t.base);
  }

  lemma {:induction false} SeqEnds(fetch: Fetch, s: Stmt, t: Site, pc: nat, b: int, count: nat)
    requires s.Seq? && Laid(fetch, s, t, pc) && InnerBound(s, t, pc, b, count)
    ensures b == pc ==> count == |t.sc|
    ensures b == pc + SizeS(s, t) ==> count == |After(s, t.sc, t.depth)|
    decreases s, 0
  {
    hide InstrsAt, Size, EncodeAll, Encode, Patch, Gen, GenE, Code, Ok, CleanS, Consts, ConstsE, LaidE, At, Laid, Bound, InnerBound, After, SizeS, NextSite, CondCode;
    var first, rest, n := s.first, s.rest, SizeS(s.first, t);
    var t1 := NextSite(first, t, n);
    SeqBound(s, t, pc, b, count);
    SeqLaid(fetch, s, t, pc);
    if n == 0 {
      NoCodeNoLocals(fetch, first, t, pc);
    }
    if SizeS(rest, t1) == 0 {
      NoCodeNoLocals(fetch, rest, t1, pc + n);
    }
    if Bound(first, t, pc, b, count) {
      BoundRange(fetch, first, t, pc, b, count);
      BoundEnds(fetch, first, t, pc, b, count);
    } else {
      BoundRange(fetch, rest, t1, pc + n, b, count);
      BoundEnds(fetch, rest, t1, pc + n, b, count);
    }
  }

  lemma {:induction false} IfEnds(fetch: Fetch, s: Stmt, t: Site, pc: nat, b: int, count: nat)
    requires s.IfS? && Laid(fetch, s, t, pc) && InnerBound(s, t, pc, b, count)
    ensures b == pc ==> count == |t.sc|
    ensures b == pc + SizeS(s, t) ==> count == |After(s, t.sc, t.depth)|
    decreases s, 0
  {
    hide InstrsAt, Size, EncodeAll, Encode, Patch, Gen, GenE, Code, Ok, CleanS, Consts, ConstsE, LaidE, At, Laid, Bound, InnerBound, After, YesSite, NoSite, CondCode, SizeS, SizeE;
    var m, k := SizeE(s.cond, t.sc, t.base), SizeS(s.yes, YesSite(s, t));
    var u, at := NoSite(s, t), pc + m + 8 + k;
    IfBound(s, t, pc, b, count);
    IfSizes(fetch, s, t, pc);
    if Bound(s.yes, YesSite(s, t), pc + m + 4, b, count) {
      BoundRange(fetch, s.yes, YesSite(s, t), pc + m + 4, b, count);
    } else {
      BoundRange(fetch, s.no, u, at, b, count);
      BoundEnds(fetch, s.no, u, at, b, count);
    }
  }

  lemma {:induction false} BlockEnds(fetch: Fetch, s: Stmt, t: Site, pc: nat, b: int, count: nat)
    requires s.BlockS? && Laid(fetch, s, t, pc) && InnerBound(s, t, pc, b, count)
    ensures b == pc ==> count == |t.sc|
    ensures b == pc + SizeS(s, t) ==> count == |After(s, t.sc, t.depth)|
    decreases s, 0
  {
    hide InstrsAt, Size, EncodeAll, Encode, Patch, Gen, GenE, Code, Ok, CleanS, Consts, ConstsE, LaidE, At, Laid, Bound, InnerBound, After, SizeS, NextSite, CondCode;
    var tb := t.(depth := t.depth + 1);
    BlockBound(s, t, pc, b, count);
    BlockFalls(s, t);
    SameCount(s.body, tb);
    BlockParts(fetch, s, t, pc);
    BoundRange(fetch, s.body, tb, pc, b, count);
    BoundEnds(fetch, s.body, tb, pc, b, count);
  }

  lemma InSeq(s: Stmt, t: Site, pc: int, q: Point)
    requires s.Seq?
    ensures var n := SizeS(s.first, t);
      In(s, t, pc, q) <==> In(s.first, t, pc, q) || (Falls(s.first) && In(s.rest, NextSite(s.first, t, n), pc + n, q))
  {
    hide SizeS, NextSite, Falls;
  }

  lemma {:induction false} InRange(fetch: Fetch, s: Stmt, t: Site, pc: nat, q: Point)
    requires Laid(fetch, s, t, pc) && In(s, t, pc, q)
    ensures pc <= q.pc < pc + SizeS(s, t)
    decreases s
  {
    hide InstrsAt, Size, EncodeAll, Encode, Patch, Gen, GenE, Code, Ok, CleanS, Consts, ConstsE, LaidE, At, Laid, Bound, InnerBound, After, YesSite, NoSite, BodySite, NextSite, CondCode, SizeS, SizeE, In, InE, Declared, LoopStart;
    match s
    case Nop => InPlain(s, t, pc, q);
    case Seq(first, rest) =>
      var n := SizeS(first, t);
      SeqLaid(fetch, s, t, pc);
      InSeq(s, t, pc, q);
      if In(first, t, pc, q) {
        InRange(fetch, first, t, pc, q);
      } else {
        InRange(fetch, rest, NextSite(first, t, n), pc + n, q);
      }
    case IfS(c, y, no) =>
      var m, k := SizeE(c, t.sc, t.base), SizeS(y, YesSite(s, t));
      IfSizes(fetch, s, t, pc);
      InIf(s, t, pc, q);
      if InE(c, t.sc, t.base, pc, |t.sc|, q) {
        CondRange(fetch, s, t, pc, q);
      } else if In(y, YesSite(s, t), pc + m + 4, q) {
        InRange(fetch, y, YesSite(s, t), pc + m + 4, q);
      } else if In(no, NoSite(s, t), pc + m + 8 + k, q) {
        InRange(fetch, no, NoSite(s, t), pc + m + 8 + k, q);
      }
    case WhileS(c, b) =>
      var at := pc + SizeE(c, t.sc, t.base) + 4;
      WhileSizes(fetch, s, t, pc);
      InWhile(s, t, pc, q);
      if InE(c, t.sc, t.base, pc, |t.sc|, q) {
        CondRange(fetch, s, t, pc, q);
      } else if In(b, BodySite(s, t, pc), at, q) {
        InRange(fetch, b, BodySite(s, t, pc), at, q);
      }
    case BlockS(b) =>
      var tb := t.(depth := t.depth + 1);
      BlockParts(fetch, s, t, pc);
      InBlock(s, t, pc, q);
      if In(b, tb, pc, q) {
        InRange(fetch, b, tb, pc, q);
      }
    case ExprS(e) => ExprRange(fetch, e, t, pc, q);
    case LetS(x, e) => LetRange(fetch, s, t, pc, q);
    case BreakS => InPlain(s, t, pc, q); OneInstr(s, t);
    case SkipS => InPlain(s, t, pc, q); LaidSkip(fetch, t, pc); OneInstr(s, t);
  }

  lemma InPlain(s: Stmt, t: Site, pc: int, q: Point)
    requires s.Nop? || s.BreakS? || s.SkipS?
    ensures In(s, t, pc, q) <==> !s.Nop? && q == Point(pc, |t.sc|)
  {
  }

  lemma CondRange(fetch: Fetch, s: Stmt, t: Site, pc: nat, q: Point)
    requires (s.IfS? || s.WhileS?) && Laid(fetch, s, t, pc) && InE(s.cond, t.sc, t.base, pc, |t.sc|, q)
    ensures pc <= q.pc < pc + SizeE(s.cond, t.sc, t.base) && (q.pc == pc ==> q.height == |t.sc|)
  {
    hide Laid, InE, At, Size, GenE, LaidE, SizeE;
    if s.IfS? {
      IfParts(fetch, s, t, pc);
    } else {
      WhileParts(fetch, s, t, pc);
    }
    RangeE(fetch, s.cond, t.sc, t.base, pc, |t.sc|, q);
  }

  /** What an expression statement is, where it stands. */
  lemma ExprParts(fetch: Fetch, e: Expr, t: Site, pc: nat)
    requires Laid(fetch, ExprS(e), t, pc)
    ensures LaidE(fetch, e, t.sc, t.base, pc) && At(fetch, pc + SizeE(e, t.sc, t.base), Pop)
    ensures SizeS(ExprS(e), t) == SizeE(e, t.sc, t.base) + 1
  {
    hide InstrsAt, Size, EncodeAll, Encode, Patch, NoHoles, GenE, At;
    var code := GenE(e, t.sc, t.base);
    NoHolesE(e, t.sc, t.base);
    NoHolesLast(code, Pop);
    PlainLaid(fetch, code + [Pop], t.brk - pc, pc);
    LastAt(fetch, pc, code, Pop);
  }

  lemma ExprRange(fetch: Fetch, e: Expr, t: Site, pc: nat, q: Point)
    requires Laid(fetch, ExprS(e), t, pc) && In(ExprS(e), t, pc, q)
    ensures pc <= q.pc < pc + SizeS(ExprS(e), t) && (q.pc == pc ==> q.height == |t.sc|)
  {
    ExprParts(fetch, e, t, pc);
    SizePositive(e, t.sc, t.base);
    if InE(e, t.sc, t.base, pc, |t.sc|, q) {
      RangeE(fetch, e, t.sc, t.base, pc, |t.sc|, q);
    }
    hide Laid, InE, At, Size, GenE, LaidE, SizeE, SizeS;
  }

  lemma LetRange(fetch: Fetch, s: Stmt, t: Site, pc: nat, q: Point)
    requires s.LetS? && Laid(fetch, s, t, pc) && In(s, t, pc, q)
    ensures pc <= q.pc < pc + SizeS(s, t) && (q.pc == pc ==> q.height == |t.sc|)
  {
    hide Laid, InE, At, Size, GenE, LaidE, SizeE, SizeS, Encode;
    var sc, base := InitScope(s, t), InitBase(t);
    LetParts(fetch, s, t, pc);
    SizePositive(s.init, sc, base);
    if InE(s.init, sc, base, pc, |t.sc|, q) {
      RangeE(fetch, s.init, sc, base, pc, |t.sc|, q);
    }
  }

  /** At a boundary, a point inside a framed statement has the height of the locals known there. */
  lemma {:induction false} BoundRight(fetch: Fetch, s: Stmt, t: Site, pc: nat, q: Point, count: nat)
    requires Laid(fetch, s, t, pc) && Framed(s, t.depth, |t.sc|, t.loopN)
    requires In(s, t, pc, q) && Bound(s, t, pc, q.pc, count)
    ensures q.height == count
    decreases s
  {
    hide InstrsAt, Size, EncodeAll, Encode, Patch, Gen, GenE, Code, Ok, CleanS, Consts, ConstsE, LaidE, At, Laid, Bound, InnerBound, After, YesSite, NoSite, BodySite, NextSite, CondCode, SizeS, SizeE, In, InE, Declared, LoopStart;
    BoundIs(s, t, pc, q.pc, count);
    InRange(fetch, s, t, pc, q);
    match s
    case Seq(first, rest) => SeqRight(fetch, s, t, pc, q, count);
    case IfS(c, y, no) => IfRight(fetch, s, t, pc, q, count);
    case WhileS(c, b) => WhileRight(fetch, s, t, pc, q, count);
    case BlockS(b) => BlockRight(fetch, s, t, pc, q, count);
    case ExprS(e) => ExprRange(fetch, e, t, pc, q); NoInner(s, t, pc, q.pc, count);
    case LetS(x, e) => LetRange(fetch, s, t, pc, q); NoInner(s, t, pc, q.pc, count);
    case _ => InPlain(s, t, pc, q); NoInner(s, t, pc, q.pc, count);
  }

  lemma NoInner(s: Stmt, t: Site, pc: nat, b: int, count: nat)
    requires !s.Seq? && !s.IfS? && !s.WhileS? && !s.BlockS?
    ensures !InnerBound(s, t, pc, b, count)
  {
  }

  lemma FirstBound(s: Stmt, t: Site, pc: nat)
    ensures Bound(s, t, pc, pc, |t.sc|) && Bound(s, t, pc, pc + SizeS(s, t), |After(s, t.sc, t.depth)|)
  {
    hide SizeS, After, InnerBound;
  }

  lemma {:induction false} SeqRight(fetch: Fetch, s: Stmt, t: Site, pc: nat, q: Point, count: nat)
    requires s.Seq? && Laid(fetch, s, t, pc) && Framed(s, t.depth, |t.sc|, t.loopN)
    requires In(s, t, pc, q) && Bound(s, t, pc, q.pc, count) && pc <= q.pc < pc + SizeS(s, t)
    ensures q.height == count
    decreases s, 0
  {
    hide InstrsAt, Size, EncodeAll, Encode, Patch, Gen, GenE, Code, Ok, CleanS, Consts, ConstsE, LaidE, At, Laid, Bound, InnerBound, After, YesSite, NoSite, BodySite, NextSite, CondCode, SizeS, SizeE, In, InE, Declared, LoopStart;
    var first, rest, n := s.first, s.rest, SizeS(s.first, t);
    var t1 := NextSite(first, t, n);
    BoundIs(s, t, pc, q.pc, count);
    SeqBound(s, t, pc, q.pc, count);
    SeqLaid(fetch, s, t, pc);
    InSeq(s, t, pc, q);
    FirstBound(first, t, pc);
    FirstBound(rest, t1, pc + n);
    SeqFramed(s, t);
    if In(first, t, pc, q) {
      InRange(fetch, first, t, pc, q);
      if Bound(rest, t1, pc + n, q.pc, count) {
        BoundRange(fetch, rest, t1, pc + n, q.pc, count);
      }
      BoundRight(fetch, first, t, pc, q, count);
    } else {
      InRange(fetch, rest, t1, pc + n, q);
      if n == 0 {
        NoCodeNoLocals(fetch, first, t, pc);
      }
      if Bound(first, t, pc, q.pc, count) {
        BoundRange(fetch, first, t, pc, q.pc, count);
        BoundEnds(fetch, first, t, pc, q.pc, count);
      }
      BoundRight(fetch, rest, t1, pc + n, q, count);
    }
  }

  lemma SeqFramed(s: Stmt, t: Site)
    requires s.Seq? && Framed(s, t.depth, |t.sc|, t.loopN)
    ensures Framed(s.first, t.depth, |t.sc|, t.loopN)
    ensures var t1 := NextSite(s.first, t, SizeS(s.first, t));
      t1.depth == t.depth && (Falls(s.first) ==> Framed(s.rest, t1.depth, |t1.sc|, t1.loopN))
  {
    SameCount(s.first, t);
    hide SizeS, After, Consts, Falls;
  }

  lemma {:induction false} IfRight(fetch: Fetch, s: Stmt, t: Site, pc: nat, q: Point, count: nat)
    requires s.IfS? && Laid(fetch, s, t, pc) && Framed(s, t.depth, |t.sc|, t.loopN)
    requires In(s, t, pc, q) && Bound(s, t, pc, q.pc, count) && pc <= q.pc < pc + SizeS(s, t)
    ensures q.height == count
    decreases s, 0
  {
    hide InstrsAt, Size, EncodeAll, Encode, Patch, Gen, GenE, Code, Ok, CleanS, Consts, ConstsE, LaidE, At, Laid, Bound, InnerBound, After, YesSite, NoSite, BodySite, NextSite, CondCode, SizeS, SizeE, In, InE, Declared, LoopStart;
    var m, k := SizeE(s.cond, t.sc, t.base), SizeS(s.yes, YesSite(s, t));
    var ty, tn, p1, p2 := YesSite(s, t), NoSite(s, t), pc + m + 4, pc + m + 8 + k;
    BoundIs(s, t, pc, q.pc, count);
    IfBound(s, t, pc, q.pc, count);
    IfSizes(fetch, s, t, pc);
    LaidLoop(fetch, s, t, pc);
    IfFramed(s, t, pc);
    InIf(s, t, pc, q);
    if Bound(s.yes, ty, p1, q.pc, count) {
      BoundRange(fetch, s.yes, ty, p1, q.pc, count);
      BoundEnds(fetch, s.yes, ty, p1, q.pc, count);
    }
    if Bound(s.no, tn, p2, q.pc, count) {
      BoundRange(fetch, s.no, tn, p2, q.pc, count);
    }
    if InE(s.cond, t.sc, t.base, pc, |t.sc|, q) {
      CondRange(fetch, s, t, pc, q);
    } else if In(s.yes, ty, p1, q) {
      InRange(fetch, s.yes, ty, p1, q);
      BoundRight(fetch, s.yes, ty, p1, q, count);
    } else if In(s.no, tn, p2, q) {
      InRange(fetch, s.no, tn, p2, q);
      BoundRight(fetch, s.no, tn, p2, q, count);
    }
  }

  lemma LaidLoop(fetch: Fetch, s: Stmt, t: Site, pc: nat)
    requires Laid(fetch, s, t, pc)
    ensures t.back.Some? == t.loopN.Some?
  {
  }

  lemma IfFramed(s: Stmt, t: Site, pc: nat)
    requires s.IfS? && Framed(s, t.depth, |t.sc|, t.loopN) && t.back.Some? == t.loopN.Some?
    ensures var ty, tn := YesSite(s, t), NoSite(s, t);
      && ty.sc == t.sc && tn.sc == t.sc && ty.depth == t.depth && tn.depth == t.depth
      && |After(s.yes, t.sc, t.depth)| == |t.sc|
      && Framed(s.yes, ty.depth, |ty.sc|, ty.loopN) && Framed(s.no, tn.depth, |tn.sc|, tn.loopN)
  {
    IfSites(s, t, pc);
    hide SizeS, After, Consts, ConstsE, Falls, SizeE, Size, CondCode;
  }

  lemma {:induction false} WhileRight(fetch: Fetch, s: Stmt, t: Site, pc: nat, q: Point, count: nat)
    requires s.WhileS? && Laid(fetch, s, t, pc) && Framed(s, t.depth, |t.sc|, t.loopN)
    requires In(s, t, pc, q) && Bound(s, t, pc, q.pc, count) && pc <= q.pc < pc + SizeS(s, t)
    ensures q.height == count
    decreases s, 0
  {
    hide InstrsAt, Size, EncodeAll, Encode, Patch, Gen, GenE, Code, Ok, CleanS, Consts, ConstsE, LaidE, At, Laid, Bound, InnerBound, After, YesSite, NoSite, BodySite, NextSite, CondCode, SizeS, SizeE, In, InE, Declared, LoopStart;
    var tb, at := BodySite(s, t, pc), pc + SizeE(s.cond, t.sc, t.base) + 4;
    BoundIs(s, t, pc, q.pc, count);
    WhileBound(s, t, pc, q.pc, count);
    WhileSizes(fetch, s, t, pc);
    WhileFramed(s, t, pc);
    InWhile(s, t, pc, q);
    if Bound(s.body, tb, at, q.pc, count) {
      BoundRange(fetch, s.body, tb, at, q.pc, count);
      BoundEnds(fetch, s.body, tb, at, q.pc, count);
    }
    if InE(s.cond, t.sc, t.base, pc, |t.sc|, q) {
      CondRange(fetch, s, t, pc, q);
    } else if In(s.body, tb, at, q) {
      InRange(fetch, s.body, tb, at, q);
      BoundRight(fetch, s.body, tb, at, q, count);
    }
  }

  lemma WhileFramed(s: Stmt, t: Site, pc: nat)
    requires s.WhileS? && Framed(s, t.depth, |t.sc|, t.loopN)
    ensures var tb := BodySite(s, t, pc);
      tb.sc == t.sc && tb.depth == t.depth && Framed(s.body, tb.depth, |tb.sc|, tb.loopN) && |After(s.body, tb.sc, tb.depth)| == |t.sc|
  {
    WhileSites(s, t, pc);
    hide After;
  }

  lemma {:induction false} BlockRight(fetch: Fetch, s: Stmt, t: Site, pc: nat, q: Point, count: nat)
    requires s.BlockS? && Laid(fetch, s, t, pc) && Framed(s, t.depth, |t.sc|, t.loopN)
    requires In(s, t, pc, q) && Bound(s, t, pc, q.pc, count) && pc <= q.pc < pc + SizeS(s, t)
    ensures q.height == count
    decreases s, 0
  {
    hide InstrsAt, Size, EncodeAll, Encode, Patch, Gen, GenE, Code, Ok, CleanS, Consts, ConstsE, LaidE, At, Laid, Bound, InnerBound, After, YesSite, NoSite, BodySite, NextSite, CondCode, SizeS, SizeE, In, InE, Declared, LoopStart;
    var tb := t.(depth := t.depth + 1);
    var n := SizeS(s.body, tb);
    BoundIs(s, t, pc, q.pc, count);
    BlockBound(s, t, pc, q.pc, count);
    BlockParts(fetch, s, t, pc);
    SameCount(s.body, tb);
    InBlock(s, t, pc, q);
    FirstBound(s.body, tb, pc);
    if Bound(s.body, tb, pc, q.pc, count) {
      BoundRange(fetch, s.body, tb, pc, q.pc, count);
      BoundEnds(fetch, s.body, tb, pc, q.pc, count);
    }
    if In(s.body, tb, pc, q) {
      InRange(fetch, s.body, tb, pc, q);
      BoundRight(fetch, s.body, tb, pc, q, count);
    }
  }

  /* The other way round: a program that is not framed has a path to a wrong height. */

  /** Some path from `a` leads through a framed statement that control can come out of. */
  lemma {:induction false} LeadsThrough(fetch: Fetch, a: Point, s: Stmt, t: Site, pc: nat)
    requires Laid(fetch, s, t, pc) && Framed(s, t.depth, |t.sc|, t.loopN) && Falls(s)
    requires Leads(fetch, a, Begin(t, pc))
    ensures Leads(fetch, a, Finish(s, t, pc))
    decreases s
  {
    hide InstrsAt, Size, EncodeAll, Encode, Patch, Gen, GenE, Code, Ok, CleanS, Consts, ConstsE, LaidE, At, Laid, Bound, InnerBound, After, YesSite, NoSite, BodySite, NextSite, CondCode, SizeS, SizeE, In, InE, Declared, LoopStart, Leads;
    var h := |t.sc|;
    SameCount(s, t);
    match s
    case Nop => NopEnds(t);
    case Seq(first, rest) =>
      SeqLaid(fetch, s, t, pc);
      SeqFramed(s, t);
      SeqFalls(s);
      SeqFinish(s, t, pc);
      LeadsThrough(fetch, a, first, t, pc);
      LeadsThrough(fetch, a, rest, NextSite(first, t, SizeS(first, t)), pc + SizeS(first, t));
    case ExprS(e) =>
      ExprParts(fetch, e, t, pc);
      LeadsE(fetch, a, e, t.sc, t.base, pc, h);
      LeadsAt(fetch, a, pc + SizeE(e, t.sc, t.base), h + 1, Pop, pc + SizeS(s, t));
      PlainFinish(s, t);
    case LetS(x, e) => LeadsLet(fetch, a, s, t, pc);
    case IfS(c, y, no) =>
      IfSizes(fetch, s, t, pc);
      LaidLoop(fetch, s, t, pc);
      IfFramed(s, t, pc);
      IfSites(s, t, pc) by { IfDeclares(s, t); }
      IfFalls(s);
      if Falls(y) {
        IfDeclares(s, t);
        LeadsYes(fetch, a, s, t, pc);
        LeadsThrough(fetch, a, y, YesSite(s, t), pc + SizeE(c, t.sc, t.base) + 4);
        LeadsRound(fetch, a, s, t, pc);
      } else {
        LeadsNo(fetch, a, s, t, pc);
        LeadsThrough(fetch, a, no, NoSite(s, t), pc + SizeE(c, t.sc, t.base) + 8 + SizeS(y, YesSite(s, t)));
      }
    case WhileS(c, b) =>
      WhileFramed(s, t, pc);
      WhileSites(s, t, pc) by { WhileDeclares(s, t); }
      LeadsOut(fetch, a, s, t, pc);
    case BlockS(b) =>
      var tb := t.(depth := t.depth + 1);
      BlockParts(fetch, s, t, pc);
      BlockFalls(s, t);
      SameCount(b, tb);
      LeadsThrough(fetch, a, b, tb, pc);
      LeadsPops(fetch, a, pc + SizeS(b, tb), Declared(b, t.depth + 1), h);
  }

  lemma NopEnds(t: Site)
    ensures SizeS(Nop, t) == 0 && After(Nop, t.sc, t.depth) == t.sc
  {
  }

  lemma PlainFinish(s: Stmt, t: Site)
    requires s.ExprS? || (s.LetS? && t.depth == 0)
    ensures After(s, t.sc, t.depth) == t.sc
  {
  }

  lemma SeqFinish(s: Stmt, t: Site, pc: nat)
    requires s.Seq? && SizeS(s, t) == SizeS(s.first, t) + SizeS(s.rest, NextSite(s.first, t, SizeS(s.first, t)))
    ensures var n := SizeS(s.first, t);
      var t1 := NextSite(s.first, t, n);
      Finish(s, t, pc) == Finish(s.rest, t1, pc + n) && Finish(s.first, t, pc) == Begin(t1, pc + n)
  {
    hide SizeS, Consts;
  }

  lemma IfDeclares(s: Stmt, t: Site)
    requires s.IfS? && Framed(s, t.depth, |t.sc|, t.loopN)
    ensures Declared(s.yes, t.depth) == 0 && (Falls(s.yes) ==> Declared(s, t.depth) == 0)
  {
  }

  lemma WhileDeclares(s: Stmt, t: Site)
    requires s.WhileS? && Framed(s, t.depth, |t.sc|, t.loopN)
    ensures Declared(s.body, t.depth) == 0
  {
  }

  lemma LeadsLet(fetch: Fetch, a: Point, s: Stmt, t: Site, pc: nat)
    requires s.LetS? && Laid(fetch, s, t, pc) && Leads(fetch, a, Begin(t, pc))
    ensures Leads(fetch, a, Finish(s, t, pc))
  {
    hide InstrsAt, Size, EncodeAll, Encode, Patch, Gen, GenE, Code, Laid, LaidE, At, SizeE, SizeS, Leads;
    LetParts(fetch, s, t, pc);
    var sc, base := InitScope(s, t), InitBase(t);
    LeadsE(fetch, a, s.init, sc, base, pc, |t.sc|);
    if t.depth == 0 {
      LeadsAt(fetch, a, pc + SizeE(s.init, sc, base), |t.sc| + 1, DefGlobal(0, t.base), pc + SizeS(s, t));
    }
  }

  /** The condition holds: into the first branch. */
  lemma LeadsYes(fetch: Fetch, a: Point, s: Stmt, t: Site, pc: nat)
    requires s.IfS? && Laid(fetch, s, t, pc) && Leads(fetch, a, Begin(t, pc))
    ensures Leads(fetch, a, Point(pc + SizeE(s.cond, t.sc, t.base) + 4, |t.sc|))
  {
    hide InstrsAt, EncodeAll, Encode, Patch, Gen, GenE, Code, Laid, LaidE, At, SizeS, Leads, Size;
    var m, k, h := SizeE(s.cond, t.sc, t.base), SizeS(s.yes, YesSite(s, t)), |t.sc|;
    IfParts(fetch, s, t, pc);
    LeadsE(fetch, a, s.cond, t.sc, t.base, pc, h);
    LeadsAt(fetch, a, pc + m, h + 1, JumpIfFalse(k + 4), pc + m + 3);
    LeadsAt(fetch, a, pc + m + 3, h + 1, Pop, pc + m + 4);
  }

  /** It does not: into the other one. */
  lemma LeadsNo(fetch: Fetch, a: Point, s: Stmt, t: Site, pc: nat)
    requires s.IfS? && Laid(fetch, s, t, pc) && Leads(fetch, a, Begin(t, pc))
    ensures Leads(fetch, a, Point(pc + SizeE(s.cond, t.sc, t.base) + 8 + SizeS(s.yes, YesSite(s, t)), |t.sc|))
  {
    hide InstrsAt, EncodeAll, Encode, Patch, Gen, GenE, Code, Laid, LaidE, At, SizeS, Leads, Size;
    var m, k, h := SizeE(s.cond, t.sc, t.base), SizeS(s.yes, YesSite(s, t)), |t.sc|;
    IfParts(fetch, s, t, pc);
    LeadsE(fetch, a, s.cond, t.sc, t.base, pc, h);
    LeadsAt(fetch, a, pc + m, h + 1, JumpIfFalse(k + 4), pc + m + 7 + k);
    LeadsAt(fetch, a, pc + m + 7 + k, h + 1, Pop, pc + m + 8 + k);
  }

  /** From the end of the first branch round the other. */
  lemma LeadsRound(fetch: Fetch, a: Point, s: Stmt, t: Site, pc: nat)
    requires s.IfS? && Laid(fetch, s, t, pc)
    requires Leads(fetch, a, Point(pc + SizeE(s.cond, t.sc, t.base) + 4 + SizeS(s.yes, YesSite(s, t)), |t.sc|))
    ensures Leads(fetch, a, Point(pc + SizeS(s, t), |t.sc|))
  {
    hide InstrsAt, EncodeAll, Encode, Patch, Gen, GenE, Code, Laid, LaidE, At, SizeS, Leads, Size;
    var m, k, n := SizeE(s.cond, t.sc, t.base), SizeS(s.yes, YesSite(s, t)), SizeS(s.no, NoSite(s, t));
    IfParts(fetch, s, t, pc);
    LeadsAt(fetch, a, pc + m + 4 + k, |t.sc|, Jump(1 + n), pc + m + 8 + k + n);
  }

  /** The condition of a loop holds. */
  lemma LeadsBody(fetch: Fetch, a: Point, s: Stmt, t: Site, pc: nat)
    requires s.WhileS? && Laid(fetch, s, t, pc) && Leads(fetch, a, Begin(t, pc))
    ensures Leads(fetch, a, Point(pc + SizeE(s.cond, t.sc, t.base) + 4, |t.sc|))
  {
    hide InstrsAt, EncodeAll, Encode, Patch, Gen, GenE, Code, Laid, LaidE, At, SizeS, Leads, Size;
    var m, k, h := SizeE(s.cond, t.sc, t.base), SizeS(s.body, BodySite(s, t, pc)), |t.sc|;
    WhileParts(fetch, s, t, pc);
    LeadsE(fetch, a, s.cond, t.sc, t.base, pc, h);
    LeadsAt(fetch, a, pc + m, h + 1, JumpIfFalse(k + 4), pc + m + 3);
    LeadsAt(fetch, a, pc + m + 3, h + 1, Pop, pc + m + 4);
  }

  /** It does not: out of the loop. */
  lemma LeadsOut(fetch: Fetch, a: Point, s: Stmt, t: Site, pc: nat)
    requires s.WhileS? && Laid(fetch, s, t, pc) && Leads(fetch, a, Begin(t, pc))
    ensures Leads(fetch, a, Point(pc + SizeS(s, t), |t.sc|))
  {
    hide InstrsAt, EncodeAll, Encode, Patch, Gen, GenE, Code, Laid, LaidE, At, SizeS, Leads, Size;
    var m, k, h := SizeE(s.cond, t.sc, t.base), SizeS(s.body, BodySite(s, t, pc)), |t.sc|;
    WhileParts(fetch, s, t, pc);
    LeadsE(fetch, a, s.cond, t.sc, t.base, pc, h);
    LeadsAt(fetch, a, pc + m, h + 1, JumpIfFalse(k + 4), pc + m + 7 + k);
    LeadsAt(fetch, a, pc + m + 7 + k, h + 1, Pop, pc + m + 8 + k);
  }

  lemma {:induction false} LeadsPops(fetch: Fetch, a: Point, pc: nat, d: nat, h: nat)
    requires InstrsAt(fetch, pc, Pops(d)) && Leads(fetch, a, Point(pc, h + d))
    ensures Leads(fetch, a, Point(pc + d, h))
    decreases d
  {
    hide Leads, Size, EncodeAll, Encode;
    if d > 0 {
      PopsAt(fetch, pc, d, 0);
      LeadsAt(fetch, a, pc, h + d, Pop, pc + 1);
      assert Pops(d)[1..] == Pops(d - 1);
      LeadsPops(fetch, a, pc + 1, d - 1, h);
    }
  }

  /** A boundary, or a target of the enclosing loop, with the wrong height. */
  ghost predicate Wrong(s: Stmt, t: Site, pc: nat, q: Point) {
    || (exists count: nat :: Bound(s, t, pc, q.pc, count) && q.height != count)
    || (t.loopN.Some? && (q.pc == t.brk || q.pc == LoopStart(pc, t)) && q.height != t.loopN.value)
  }

  lemma WrongBound(s: Stmt, t: Site, pc: nat, q: Point, count: nat)
    requires Bound(s, t, pc, q.pc, count) && q.height != count
    ensures Wrong(s, t, pc, q)
  {
    hide Bound;
  }

  /** What is wrong in a part of a statement in the same loop is wrong in it. */
  lemma WrongPart(s: Stmt, t: Site, pc: nat, r: Stmt, u: Site, at: nat, q: Point)
    requires Wrong(r, u, at, q)
    requires forall count: nat :: Bound(r, u, at, q.pc, count) ==> Bound(s, t, pc, q.pc, count)
    requires u.loopN == t.loopN && u.brk == t.brk && (t.loopN.Some? ==> LoopStart(at, u) == LoopStart(pc, t))
    ensures Wrong(s, t, pc, q)
  {
    hide Bound, LoopStart;
  }

  /** Some path through a statement that is not framed leads to a wrong height. */
  lemma {:induction false} LeadsAstray(fetch: Fetch, a: Point, s: Stmt, t: Site, pc: nat) returns (q: Point)
    requires Laid(fetch, s, t, pc) && !Framed(s, t.depth, |t.sc|, t.loopN) && Leads(fetch, a, Begin(t, pc))
    ensures Leads(fetch, a, q) && Wrong(s, t, pc, q)
    decreases s, 1
  {
    hide InstrsAt, Size, EncodeAll, Encode, Patch, Gen, GenE, Code, Ok, CleanS, Consts, ConstsE, LaidE, At, Laid, Bound, InnerBound, After, YesSite, NoSite, BodySite, NextSite, CondCode, SizeS, SizeE, In, InE, Declared, LoopStart, Leads;
    hide Wrong;
    match s
    case Seq(first, rest) => q := SeqAstray(fetch, a, s, t, pc);
    case IfS(c, y, no) => q := IfAstray(fetch, a, s, t, pc);
    case WhileS(c, b) => q := WhileAstray(fetch, a, s, t, pc);
    case BlockS(b) =>
      var tb := t.(depth := t.depth + 1);
      BlockParts(fetch, s, t, pc);
      q := LeadsAstray(fetch, a, b, tb, pc);
      BlockWrong(s, t, pc, q);
    case BreakS => q := BreakAstray(fetch, a, s, t, pc);
    case SkipS => q := BreakAstray(fetch, a, s, t, pc);
  }

  lemma BlockWrong(s: Stmt, t: Site, pc: nat, q: Point)
    requires s.BlockS? && Wrong(s.body, t.(depth := t.depth + 1), pc, q)
    ensures Wrong(s, t, pc, q)
  {
    hide Bound, InnerBound;
    forall count: nat | Bound(s.body, t.(depth := t.depth + 1), pc, q.pc, count)
      ensures Bound(s, t, pc, q.pc, count)
    {
      BlockBound(s, t, pc, q.pc, count);
      BoundIs(s, t, pc, q.pc, count);
    }
    WrongPart(s, t, pc, s.body, t.(depth := t.depth + 1), pc, q);
  }

  lemma BreakAstray(fetch: Fetch, a: Point, s: Stmt, t: Site, pc: nat) returns (q: Point)
    requires s.BreakS? || s.SkipS?
    requires Laid(fetch, s, t, pc) && t.loopN != Some(|t.sc|) && Leads(fetch, a, Begin(t, pc))
    ensures Leads(fetch, a, q) && Wrong(s, t, pc, q)
  {
    hide Leads, Bound, InstrsAt, Patch, Encode, EncodeAll, Size;
    if s.BreakS? {
      BreakAt(fetch, t, pc);
      LeadsAt(fetch, a, pc, |t.sc|, Jump(t.brk - pc - 3), t.brk);
      q := Point(t.brk, |t.sc|);
    } else {
      SkipAt(fetch, t, pc);
      LeadsAt(fetch, a, pc, |t.sc|, Loop(t.back.value + 3), pc - t.back.value);
      q := Point(pc - t.back.value, |t.sc|);
    }
  }

  lemma {:induction false} SeqAstray(fetch: Fetch, a: Point, s: Stmt, t: Site, pc: nat) returns (q: Point)
    requires s.Seq? && Laid(fetch, s, t, pc) && !Framed(s, t.depth, |t.sc|, t.loopN) && Leads(fetch, a, Begin(t, pc))
    ensures Leads(fetch, a, q) && Wrong(s, t, pc, q)
    decreases s, 0
  {
    hide InstrsAt, Size, EncodeAll, Encode, Patch, Gen, GenE, Code, Ok, CleanS, Consts, ConstsE, LaidE, At, Laid, Bound, InnerBound, After, YesSite, NoSite, BodySite, NextSite, CondCode, SizeS, SizeE, In, InE, Declared, LoopStart, Leads;
    hide Wrong;
    var first, rest, n := s.first, s.rest, SizeS(s.first, t);
    var t1 := NextSite(first, t, n);
    SeqLaid(fetch, s, t, pc);
    SeqFinish(s, t, pc);
    SeqNotFramed(s, t);
    LaidLoop(fetch, s, t, pc);
    if !Framed(first, t.depth, |t.sc|, t.loopN) {
      q := LeadsAstray(fetch, a, first, t, pc);
    } else {
      LeadsThrough(fetch, a, first, t, pc);
      q := LeadsAstray(fetch, a, rest, t1, pc + n);
    }
    SeqWrong(s, t, pc, q);
  }

  lemma SeqNotFramed(s: Stmt, t: Site)
    requires s.Seq? && !Framed(s, t.depth, |t.sc|, t.loopN)
    ensures var t1 := NextSite(s.first, t, SizeS(s.first, t));
      !Framed(s.first, t.depth, |t.sc|, t.loopN) || (Falls(s.first) && !Framed(s.rest, t1.depth, |t1.sc|, t1.loopN))
  {
    SameCount(s.first, t);
    hide SizeS, After, Consts, Falls;
  }

  lemma SeqWrong(s: Stmt, t: Site, pc: nat, q: Point)
    requires s.Seq? && t.back.Some? == t.loopN.Some?
    requires Wrong(s.first, t, pc, q) ||
      Wrong(s.rest, NextSite(s.first, t, SizeS(s.first, t)), pc + SizeS(s.first, t), q)
    ensures Wrong(s, t, pc, q)
  {
    hide Bound, InnerBound, SizeS, Consts, After, Wrong;
    var n := SizeS(s.first, t);
    var t1 := NextSite(s.first, t, n);
    forall count: nat | Bound(s.first, t, pc, q.pc, count) || Bound(s.rest, t1, pc + n, q.pc, count)
      ensures Bound(s, t, pc, q.pc, count)
    {
      SeqBound(s, t, pc, q.pc, count);
      BoundIs(s, t, pc, q.pc, count);
    }
    if Wrong(s.first, t, pc, q) {
      WrongPart(s, t, pc, s.first, t, pc, q);
    } else {
      WrongPart(s, t, pc, s.rest, t1, pc + n, q);
    }
  }

  lemma {:induction false} IfAstray(fetch: Fetch, a: Point, s: Stmt, t: Site, pc: nat) returns (q: Point)
    requires s.IfS? && Laid(fetch, s, t, pc) && !Framed(s, t.depth, |t.sc|, t.loopN) && Leads(fetch, a, Begin(t, pc))
    ensures Leads(fetch, a, q) && Wrong(s, t, pc, q)
    decreases s, 0
  {
    hide InstrsAt, Size, EncodeAll, Encode, Patch, Gen, GenE, Code, Ok, CleanS, Consts, ConstsE, LaidE, At, Laid, Bound, InnerBound, After, YesSite, NoSite, BodySite, NextSite, CondCode, SizeS, SizeE, In, InE, Declared, LoopStart, Leads;
    hide Wrong;
    var m, k := SizeE(s.cond, t.sc, t.base), SizeS(s.yes, YesSite(s, t));
    var ty, tn, p1, p2 := YesSite(s, t), NoSite(s, t), pc + m + 4, pc + m + 8 + k;
    IfSizes(fetch, s, t, pc);
    LaidLoop(fetch, s, t, pc);
    LeadsYes(fetch, a, s, t, pc);
    LeadsNo(fetch, a, s, t, pc);
    NoCount(s, t);
    if Declared(s.yes, t.depth) != 0 {
      q := Point(p2, |t.sc|);
      FirstBound(s.no, tn, p2);
      WrongBound(s.no, tn, p2, q, |tn.sc|);
    } else {
      IfSites(s, t, pc);
      IfNotFramed(s, t);
      if !Framed(s.yes, t.depth, |t.sc|, t.loopN) {
        q := LeadsAstray(fetch, a, s.yes, ty, p1);
      } else if !Framed(s.no, t.depth, |t.sc|, t.loopN) {
        q := LeadsAstray(fetch, a, s.no, tn, p2);
      } else {
        LeadsThrough(fetch, a, s.yes, ty, p1);
        LeadsRound(fetch, a, s, t, pc);
        q := Point(pc + SizeS(s, t), |t.sc|);
        SameCount(s, t);
        DeclaredIf(s, t.depth);
        FirstBound(s, t, pc);
        WrongBound(s, t, pc, q, |After(s, t.sc, t.depth)|);
      }
    }
    if !Wrong(s, t, pc, q) {
      IfWrong(s, t, pc, q);
    }
  }

  lemma NoCount(s: Stmt, t: Site)
    requires s.IfS?
    ensures |NoSite(s, t).sc| == |t.sc| + Declared(s.yes, t.depth) && YesSite(s, t).sc == t.sc
  {
    hide Size, Consts, ConstsE, CondCode, Code, After;
    AfterExtends(s.yes, t.sc, t.depth);
  }

  lemma IfNotFramed(s: Stmt, t: Site)
    requires s.IfS? && !Framed(s, t.depth, |t.sc|, t.loopN) && Declared(s.yes, t.depth) == 0
    ensures !Framed(s.yes, t.depth, |t.sc|, t.loopN) || !Framed(s.no, t.depth, |t.sc|, t.loopN) ||
      (Falls(s.yes) && Declared(s.no, t.depth) != 0)
  {
  }

  lemma IfWrong(s: Stmt, t: Site, pc: nat, q: Point)
    requires s.IfS? && t.back.Some? == t.loopN.Some?
    requires var m, k := SizeE(s.cond, t.sc, t.base), SizeS(s.yes, YesSite(s, t));
      Wrong(s.yes, YesSite(s, t), pc + m + 4, q) || Wrong(s.no, NoSite(s, t), pc + m + 8 + k, q)
    ensures Wrong(s, t, pc, q)
  {
    hide Bound, InnerBound, SizeS, SizeE, Consts, ConstsE, After, Wrong, YesSite, NoSite, LoopStart;
    var m, k := SizeE(s.cond, t.sc, t.base), SizeS(s.yes, YesSite(s, t));
    var ty, tn, p1, p2 := YesSite(s, t), NoSite(s, t), pc + m + 4, pc + m + 8 + k;
    IfLoops(s, t, pc);
    forall count: nat | Bound(s.yes, ty, p1, q.pc, count) || Bound(s.no, tn, p2, q.pc, count)
      ensures Bound(s, t, pc, q.pc, count)
    {
      IfBound(s, t, pc, q.pc, count);
      BoundIs(s, t, pc, q.pc, count);
    }
    if Wrong(s.yes, ty, p1, q) {
      WrongPart(s, t, pc, s.yes, ty, p1, q);
    } else {
      WrongPart(s, t, pc, s.no, tn, p2, q);
    }
  }

  lemma IfLoops(s: Stmt, t: Site, pc: nat)
    requires s.IfS? && t.back.Some? == t.loopN.Some?
    ensures var m, k := SizeE(s.cond, t.sc, t.base), SizeS(s.yes, YesSite(s, t));
      var ty, tn := YesSite(s, t), NoSite(s, t);
      && ty.loopN == t.loopN && ty.brk == t.brk && (t.loopN.Some? ==> LoopStart(pc + m + 4, ty) == LoopStart(pc, t))
      && tn.loopN == t.loopN && tn.brk == t.brk && (t.loopN.Some? ==> LoopStart(pc + m + 8 + k, tn) == LoopStart(pc, t))
  {
    hide Size, Gen, GenE, Consts, ConstsE, After;
  }

  lemma {:induction false} WhileAstray(fetch: Fetch, a: Point, s: Stmt, t: Site, pc: nat) returns (q: Point)
    requires s.WhileS? && Laid(fetch, s, t, pc) && !Framed(s, t.depth, |t.sc|, t.loopN) && Leads(fetch, a, Begin(t, pc))
    ensures Leads(fetch, a, q) && Wrong(s, t, pc, q)
    decreases s, 0
  {
    hide InstrsAt, Size, EncodeAll, Encode, Patch, Gen, GenE, Code, Ok, CleanS, Consts, ConstsE, LaidE, At, Laid, Bound, InnerBound, After, YesSite, NoSite, BodySite, NextSite, CondCode, SizeS, SizeE, In, InE, Declared, LoopStart, Leads;
    hide Wrong;
    WhileSizes(fetch, s, t, pc);
    FirstBound(s, t, pc);
    if Declared(s.body, t.depth) != 0 {
      LeadsOut(fetch, a, s, t, pc);
      q := Point(pc + SizeS(s, t), |t.sc|);
      SameCount(s, t);
      DeclaredWhile(s, t.depth);
      WrongBound(s, t, pc, q, |After(s, t.sc, t.depth)|);
    } else {
      var tb, at := BodySite(s, t, pc), pc + SizeE(s.cond, t.sc, t.base) + 4;
      WhileSites(s, t, pc);
      WhileNotFramed(s, t);
      LeadsBody(fetch, a, s, t, pc);
      q := LeadsAstray(fetch, a, s.body, tb, at);
      WhileWrong(s, t, pc, q);
    }
  }

  lemma DeclaredWhile(s: Stmt, depth: nat)
    requires s.WhileS?
    ensures Declared(s, depth) == Declared(s.body, depth)
  {
  }

  lemma WhileNotFramed(s: Stmt, t: Site)
    requires s.WhileS? && !Framed(s, t.depth, |t.sc|, t.loopN) && Declared(s.body, t.depth) == 0
    ensures !Framed(s.body, t.depth, |t.sc|, Some(|t.sc|))
  {
  }

  lemma WhileWrong(s: Stmt, t: Site, pc: nat, q: Point)
    requires s.WhileS?
    requires var tb, at := BodySite(s, t, pc), pc + SizeE(s.cond, t.sc, t.base) + 4;
      Wrong(s.body, tb, at, q) && tb.loopN == Some(|t.sc|) && tb.brk == pc + SizeS(s, t) && LoopStart(at, tb) == pc &&
      |After(s, t.sc, t.depth)| == |t.sc|
    ensures Wrong(s, t, pc, q)
  {
    hide Bound, InnerBound, SizeS, SizeE, After, BodySite, LoopStart;
    var tb, at := BodySite(s, t, pc), pc + SizeE(s.cond, t.sc, t.base) + 4;
    FirstBound(s, t, pc);
    if count: nat :| Bound(s.body, tb, at, q.pc, count) && q.height != count {
      WhileBound(s, t, pc, q.pc, count);
      BoundIs(s, t, pc, q.pc, count);
    }
  }

  /* Whole programs. */

  function Fetched(s: Stmt): Fetch {
    FetchFrom(EncodeAll(GenProgram(s)))
  }

  /** Programs the compiler accepts, framed or not. */
  predicate Accepted(s: Stmt) {
    CleanS(s) && Ok(s, MainScope, 0, false) && AllFit(GenProgram(s))
  }

  const START: Point := Point(0, 1)

  /** At every statement boundary of every path the stack holds the locals the compiler knows of there. */
  ghost predicate HeightsRight(s: Stmt) {
    forall q: Point, count: nat ::
      Leads(Fetched(s), START, q) && Bound(s, MainSite, 0, q.pc, count) ==> q.height == count
  }

  lemma MainLaid(s: Stmt)
    requires Accepted(s)
    ensures Laid(Fetched(s), s, MainSite, 0)
    ensures var n := SizeS(s, MainSite); At(Fetched(s), n, PushNone) && At(Fetched(s), n + 1, Return)
  {
    hide InstrsAt, Gen, NoHoles, Size, Encode, EncodeAll, Patch, AllFit, At;
    var code := Code(s, MainSite);
    ProgramReadable(s);
    NoHolesOutside(s, MainScope, 0, 1);
    PatchNothing(code, 0);
    ApartAt(Fetched(s), 0, code, [PushNone, Return, End]);
    assert [PushNone, Return, End] == [PushNone] + [Return, End] && [Return, End] == [Return] + [End];
    FirstAt(Fetched(s), Size(code), PushNone, [Return, End]);
    FirstAt(Fetched(s), Size(code) + 1, Return, [End]);
  }

  /** Where the paths through a framed program stay. */
  predicate Reached(s: Stmt, q: Point) {
    In(s, MainSite, 0, q) || q == Finish(s, MainSite, 0) ||
    q == Point(SizeS(s, MainSite) + 1, |After(s, MainScope, 0)| + 1)
  }

  lemma ReachedStep(s: Stmt, q: Point, r: Point)
    requires Accepted(s) && StaysS(Fetched(s), s, MainSite, 0) && Reached(s, q) && Moves(Fetched(s), q, r)
    requires var n := SizeS(s, MainSite); At(Fetched(s), n, PushNone) && At(Fetched(s), n + 1, Return)
    ensures Reached(s, r)
  {
    hide Accepted, In, SizeS, After, At, Moves, Fetched;
    var n, h := SizeS(s, MainSite), |After(s, MainScope, 0)|;
    if !In(s, MainSite, 0, q) {
      if q == Finish(s, MainSite, 0) {
        MovesAt(Fetched(s), n, h, PushNone, r);
      } else {
        MovesAt(Fetched(s), n + 1, h + 1, Return, r);
      }
    }
  }

  lemma {:induction false} WalkReached(s: Stmt, a: Point, q: Point, n: nat)
    requires Accepted(s) && StaysS(Fetched(s), s, MainSite, 0) && Reached(s, a) && Walk(Fetched(s), a, q, n)
    requires var n := SizeS(s, MainSite); At(Fetched(s), n, PushNone) && At(Fetched(s), n + 1, Return)
    ensures Reached(s, q)
    decreases n
  {
    hide Accepted, StaysS, Reached, Moves, At, SizeS, Fetched;
    if n > 0 {
      var c :| Moves(Fetched(s), a, c) && Walk(Fetched(s), c, q, n - 1);
      ReachedStep(s, a, c);
      WalkReached(s, c, q, n - 1);
    }
  }

  lemma FramedReaches(s: Stmt, q: Point)
    requires Accepted(s) && Framed(s, 0, 1, None) && Leads(Fetched(s), START, q)
    ensures Reached(s, q)
  {
    hide Accepted, StaysS, In, Moves, At, SizeS, Fetched, Framed, Laid, Walk, After;
    MainLaid(s);
    ClosedS(Fetched(s), s, MainSite, 0);
    var n: nat :| Walk(Fetched(s), START, q, n);
    WalkReached(s, START, q, n);
  }

  /**
    A program is framed if and only if at every statement boundary of every path through its
    bytes the stack holds exactly the locals the compiler counts there.
   */
  lemma HeightsExact(s: Stmt)
    requires Accepted(s)
    ensures HeightsRight(s) <==> Framed(s, 0, 1, None)
  {
    hide Accepted, In, Moves, At, SizeS, Fetched, Framed, Laid, Walk, After, Leads, Bound;
    MainLaid(s);
    if Framed(s, 0, 1, None) {
      forall q: Point, count: nat | Leads(Fetched(s), START, q) && Bound(s, MainSite, 0, q.pc, count)
        ensures q.height == count
      {
        FramedReaches(s, q);
        BoundRange(Fetched(s), s, MainSite, 0, q.pc, count);
        BoundEnds(Fetched(s), s, MainSite, 0, q.pc, count);
        if In(s, MainSite, 0, q) {
          BoundRight(Fetched(s), s, MainSite, 0, q, count);
        }
      }
    } else {
      LeadsNowhere(Fetched(s), START);
      var q := LeadsAstray(Fetched(s), START, s, MainSite, 0);
      assert exists count: nat :: Bound(s, MainSite, 0, q.pc, count) && q.height != count;
    }
  }

  /** In particular on every run of the machine. */
  lemma RunHeights(s: Stmt, m: Arith, self: Value, g: Globals, n: nat, count: nat)
    requires Compilable(s)
    requires var c := Run(Compiled(s, m), Initial(self, g), n); c.Running? && Bound(s, MainSite, 0, c.pc, count)
    ensures |Run(Compiled(s, m), Initial(self, g), n).stack| == count
  {
    hide Bound, Leads, Framed, Ok, CleanS, AllFit, Run;
    var c := Run(Compiled(s, m), Initial(self, g), n);
    RunLeads(Compiled(s, m), Initial(self, g), n);
    HeightsExact(s);
    assert Leads(Fetched(s), START, Point(c.pc, |c.stack|));
  }
}
