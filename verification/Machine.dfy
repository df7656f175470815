/**
  The virtual machine on the opcodes of the fragment, one call frame deep: what each
  instruction does to the program counter, the value stack and the globals.
 */
module Machine {
  import opened Wrappers
  import opened Bytecode
  import opened Syntax
  import opened Semantics

  /** `Stuck` stands for everything the source leaves undefined: a bad opcode, an empty stack. */
  datatype Config =
    | Running(pc: nat, stack: seq<Value>, globals: Globals)
    | Halted(globals: Globals)
    | Crashed(error: Error, globals: Globals)
    | Stuck

  /** What the machine runs: fetched instructions, the constant pool and an arithmetic. */
  datatype Program = Program(fetch: Fetch, pool: seq<Value>, arith: Arith)

  function Step(p: Program, c: Config): Config {
    if !c.Running? then c
    else
      match p.fetch(c.pc)
      case None => Stuck
      case Some(Decoded(i, next)) => Execute(p, i, next, c.stack, c.globals)
  }

  function Push(next: nat, stack: seq<Value>, v: Value, g: Globals): Config {
    Running(next, stack + [v], g)
  }

  /** The owner of the globals of a main program is the none constant. */
  predicate NamesGlobal(p: Program, owner: nat, index: nat) {
    owner < |p.pool| && index < |p.pool| && p.pool[owner] == NoneV && p.pool[index].StrV?
  }

  function Execute(p: Program, i: Instr, next: nat, stack: seq<Value>, g: Globals): Config {
    match i
    case Const(index) => if index < |p.pool| then Push(next, stack, p.pool[index], g) else Stuck
    case PushNone => Push(next, stack, NoneV, g)
    case PushTrue => Push(next, stack, BoolV(true), g)
    case PushFalse => Push(next, stack, BoolV(false), g)
    case GetLocal(slot) => if slot < |stack| then Push(next, stack, stack[slot], g) else Stuck
    case GetGlobal(o, index) =>
      if !NamesGlobal(p, o, index) then Stuck
      else if p.pool[index].text !in g then Crashed(UndefErr(p.pool[index].text), g)
      else Push(next, stack, g[p.pool[index].text], g)
    case Jump(offset) => if next + offset >= 0 then Running(next + offset, stack, g) else Stuck
    case Loop(offset) => if next - offset >= 0 then Running(next - offset, stack, g) else Stuck
    case End => Stuck
    case BreakHole => Stuck
    case _ => if stack == [] then Stuck else ExecuteOnTop(p, i, next, stack[..|stack| - 1], stack[|stack| - 1], g)
  }

  /** The instructions that look at the top of the stack; `rest` is the stack below it. */
  function ExecuteOnTop(p: Program, i: Instr, next: nat, rest: seq<Value>, top: Value, g: Globals): Config {
    match i
    case Pop => Running(next, rest, g)
    case ToBool => Push(next, rest, BoolV(!Falsey(top)), g)
    case Not => Push(next, rest, BoolV(Falsey(top)), g)
    case Neg =>
      if top.NumV? then Push(next, rest, NumV(p.arith.negate(top.number)), g) else Crashed(DiffTypes, g)
    case Binary(op) =>
      if rest == [] then Stuck
      else
        (match Apply(p.arith, op, rest[|rest| - 1], top)
         case Result(v) => Push(next, rest[..|rest| - 1], v, g)
         case Error(err) => Crashed(err, g))
    case JumpIfFalse(offset) =>
      if !Falsey(top) then Running(next, rest + [top], g)
      else if next + offset >= 0 then Running(next + offset, rest + [top], g)
      else Stuck
    case SetLocal(slot) => if slot < |rest| then Running(next, rest[slot := top] + [top], g) else Stuck
    case SetGlobal(o, index) =>
      if !NamesGlobal(p, o, index) then Stuck
      else if p.pool[index].text !in g then Crashed(UndefErr(p.pool[index].text), g)
      else Running(next, rest + [top], g[p.pool[index].text := top])
    case DefGlobal(o, index) =>
      if !NamesGlobal(p, o, index) then Stuck else Running(next, rest, g[p.pool[index].text := top])
    case Return => if rest == [] then Stuck else Halted(g)
    case _ => Stuck
  }

  function Run(p: Program, c: Config, n: nat): Config
    decreases n
  {
    if n == 0 then c else Run(p, Step(p, c), n - 1)
  }

  lemma {:induction false} RunAdd(p: Program, c: Config, m: nat, n: nat)
    ensures Run(p, c, m + n) == Run(p, Run(p, c, m), n)
    decreases m
  {
    if m > 0 {
      RunAdd(p, Step(p, c), m - 1, n);
    }
  }

  /** A machine that has come to rest stays there. */
  lemma {:induction false} RunAtRest(p: Program, c: Config, n: nat)
    requires !c.Running?
    ensures Run(p, c, n) == c
    decreases n
  {
    if n > 0 {
      RunAtRest(p, c, n - 1);
    }
  }
}
