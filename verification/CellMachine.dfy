/**
  What closures of jml mean: every variable is a cell of its own, a closure holds the cells
  of the variables it captures, and a cell outlives the scope that made it. There is no
  sharing between a variable and a later one that takes its place on the stack.
 */
module CellMachine {
  import opened Wrappers

  /** A closure value is the number of a closure in order of creation. */
  datatype Value = Plain(number: int) | Closure(id: nat)

  /** A captured variable: a local of the enclosing function, or one of its own upvalues. */
  datatype Capture = Capture(isLocal: bool, index: nat)

  /** The instructions that concern variables, closures and calls. */
  datatype Instr =
    | Push(value: Value)
    | Pop
    | GetLocal(slot: nat)
    | SetLocal(slot: nat)
    | GetUpvalue(slot: nat)
    | SetUpvalue(slot: nat)
    | CloseUpvalue
    | MakeClosure(arity: nat, captures: seq<Capture>)
    | Call(args: nat)
    | Return

  datatype Frame = Frame(base: nat, closure: nat)

  datatype Func = Func(arity: nat, cells: seq<nat>)

  /**
    `slots` are the cells on the stack, `seen` the values loaded and returned so far. There
    is place for `room` values and `depth` frames; both only ever grow.
   */
  datatype State = State(
    slots: seq<nat>,
    store: seq<Value>,
    frames: seq<Frame>,
    funcs: seq<Func>,
    captured: set<nat>,
    seen: seq<Value>,
    room: nat,
    depth: nat)

  /**
    How an instruction ends. `Overrun` is the one the source does not survive: the stack
    cannot be enlarged, no coroutine is left running, and one is used nevertheless.
   */
  datatype Outcome = Ran(state: State) | RuntimeError | Overrun

  const FRAMES_MAX: nat := 128
  const FRAMES_MIN: nat := 8
  const STACK_MAX: nat := 32768
  const STACK_MIN: nat := 128

  function Top(s: State): Option<Value> {
    if s.slots == [] || s.slots[|s.slots| - 1] >= |s.store| then None
    else Some(s.store[s.slots[|s.slots| - 1]])
  }

  function Fetch(store: seq<Value>, cell: nat): Value {
    if cell < |store| then store[cell] else Plain(0)
  }

  function Load(s: State, cell: nat): Value {
    Fetch(s.store, cell)
  }

  function Pushed(s: State, v: Value): State {
    s.(slots := s.slots + [|s.store|], store := s.store + [v])
  }

  /** The stack can be doubled. */
  predicate CanGrow(s: State) {
    2 * s.room < STACK_MAX
  }

  function Grown(s: State): State {
    s.(room := 2 * s.room)
  }

  /** A push, which enlarges a stack that would become full. */
  function PushStep(s: State, v: Value): Outcome {
    if |s.slots| + 1 < s.room then Ran(Pushed(s, v))
    else if CanGrow(s) then Ran(Pushed(Grown(s), v))
    else Overrun
  }

  function ThenSeen(o: Outcome, v: Value): Outcome {
    if o.Ran? then Ran(Seen(o.state, v)) else o
  }

  function Seen(s: State, v: Value): State {
    s.(seen := s.seen + [v])
  }

  function Put(s: State, cell: nat, v: Value): State {
    if cell < |s.store| then s.(store := s.store[cell := v]) else s
  }

  function Shrunk(s: State, height: nat): State {
    if height <= |s.slots| then s.(slots := s.slots[..height]) else s
  }

  /** The cells a closure made in this state holds. */
  function Cells(s: State, captures: seq<Capture>): seq<nat>
    requires CapturesFit(s, captures)
  {
    if captures == [] then []
    else Cells(s, captures[..|captures| - 1]) + [CellOf(s, captures[|captures| - 1])]
  }

  function CellOf(s: State, c: Capture): nat
    requires CaptureFits(s, c)
  {
    if c.isLocal then s.slots[Current(s).base + c.index] else s.funcs[Current(s).closure].cells[c.index]
  }

  /** The cells that are captured from locals. */
  function Locals(s: State, captures: seq<Capture>): set<nat>
    requires CapturesFit(s, captures)
  {
    if captures == [] then {}
    else
      var c := captures[|captures| - 1];
      Locals(s, captures[..|captures| - 1]) + (if c.isLocal then {CellOf(s, c)} else {})
  }

  predicate CaptureFits(s: State, c: Capture) {
    s.frames != [] &&
    if c.isLocal then Current(s).base + c.index < |s.slots|
    else Current(s).closure < |s.funcs| && c.index < |s.funcs[Current(s).closure].cells|
  }

  predicate CapturesFit(s: State, captures: seq<Capture>) {
    forall k :: 0 <= k < |captures| ==> CaptureFits(s, captures[k])
  }

  function Current(s: State): Frame
    requires s.frames != []
  {
    s.frames[|s.frames| - 1]
  }

  /**
    What compiled code keeps to: operands are there, and a captured variable leaves the
    stack by CloseUpvalue or Return, not by Pop.
   */
  predicate Proper(s: State, i: Instr) {
    s.frames != [] &&
    match i
    case Push(_) => true
    case Pop => s.slots != [] && s.slots[|s.slots| - 1] !in s.captured && Current(s).base < |s.slots| - 1
    case GetLocal(k) => Current(s).base + k < |s.slots|
    case SetLocal(k) => Current(s).base + k < |s.slots|
    case GetUpvalue(k) => Current(s).closure < |s.funcs| && k < |s.funcs[Current(s).closure].cells|
    case SetUpvalue(k) =>
      s.slots != [] && Current(s).closure < |s.funcs| && k < |s.funcs[Current(s).closure].cells|
    case CloseUpvalue => s.slots != [] && Current(s).base < |s.slots| - 1
    case MakeClosure(_, captures) => CapturesFit(Pushed(s, Closure(|s.funcs|)), captures)
    case Call(n) => Current(s).base + n + 1 < |s.slots|
    case Return => Current(s).base + 1 < |s.slots|
  }

  /** One instruction. */
  function Step(s: State, i: Instr): Outcome
    requires Proper(s, i)
  {
    match i
    case Push(v) => PushStep(s, v)
    case Pop => Ran(Shrunk(s, |s.slots| - 1))
    case GetLocal(k) =>
      var v := Load(s, s.slots[Current(s).base + k]);
      ThenSeen(PushStep(s, v), v)
    case SetLocal(k) => Ran(Put(s, s.slots[Current(s).base + k], Load(s, s.slots[|s.slots| - 1])))
    case GetUpvalue(k) =>
      var v := Load(s, s.funcs[Current(s).closure].cells[k]);
      ThenSeen(PushStep(s, v), v)
    case SetUpvalue(k) =>
      Ran(Put(s, s.funcs[Current(s).closure].cells[k], Load(s, s.slots[|s.slots| - 1])))
    case CloseUpvalue => Ran(Shrunk(s, |s.slots| - 1))
    case MakeClosure(arity, captures) => Close(s, PushStep(s, Closure(|s.funcs|)), arity, captures)
    case Call(n) => Enter(s, n)
    case Return =>
      var result, base := Load(s, s.slots[|s.slots| - 1]), Current(s).base;
      var left := s.(frames := s.frames[..|s.frames| - 1]);
      if |s.frames| == 1 then Ran(Seen(Shrunk(left, base), result))
      else Ran(Seen(Pushed(Shrunk(left, base), result), result))
  }

  /** A closure that has been pushed gets its cells. */
  function Close(s: State, o: Outcome, arity: nat, captures: seq<Capture>): Outcome
    requires CapturesFit(Pushed(s, Closure(|s.funcs|)), captures)
  {
    if !o.Ran? then o
    else
      var p := Pushed(s, Closure(|s.funcs|));
      Ran(o.state.(funcs := s.funcs + [Func(arity, Cells(p, captures))], captured := s.captured + Locals(p, captures)))
  }

  /** The value called is a closure of that many parameters, and there may be one more frame. */
  predicate Callable(s: State, n: nat) {
    n < |s.slots| &&
    var callee := Load(s, s.slots[|s.slots| - n - 1]);
    callee.Closure? && callee.id < |s.funcs| && s.funcs[callee.id].arity == n && |s.frames| != FRAMES_MAX
  }

  /** A call; the frames are enlarged before they are full, and the stack along with them. */
  function Enter(s: State, n: nat): Outcome
    requires n < |s.slots|
  {
    var callee := Load(s, s.slots[|s.slots| - n - 1]);
    if !Callable(s, n) then RuntimeError
    else if |s.frames| + 1 < s.depth then Ran(Entered(s, n, callee.id))
    else if CanGrow(s) then Ran(Entered(Grown(s).(depth := 2 * s.depth), n, callee.id))
    else Overrun
  }

  function Entered(s: State, n: nat, id: nat): State
    requires n < |s.slots|
  {
    s.(frames := s.frames + [Frame(|s.slots| - n - 1, id)])
  }

  /** Whether a run keeps to what compiled code keeps to, as far as it goes. */
  predicate ProperRun(s: State, code: seq<Instr>)
    decreases |code|
  {
    code == [] || s.frames == [] ||
    (Proper(s, code[0]) && (!Step(s, code[0]).Ran? || ProperRun(Step(s, code[0]).state, code[1..])))
  }

  /** A run stops with the code, when the last frame returns, or when an instruction fails. */
  function Run(s: State, code: seq<Instr>): Outcome
    requires ProperRun(s, code)
    decreases |code|
  {
    if code == [] || s.frames == [] then Ran(s)
    else if !Step(s, code[0]).Ran? then Step(s, code[0])
    else Run(Step(s, code[0]).state, code[1..])
  }

  /** The variable an instruction assigns to, if it does. */
  function Target(s: State, i: Instr): Option<nat>
    requires Proper(s, i)
  {
    match i
    case SetLocal(k) => Some(s.slots[Current(s).base + k])
    case SetUpvalue(k) => Some(s.funcs[Current(s).closure].cells[k])
    case _ => None
  }

  /** Variables are independent: an instruction changes at most the one it assigns to, and none disappears. */
  lemma OnlyTheTarget(s: State, i: Instr, c: nat)
    requires Proper(s, i) && Step(s, i).Ran? && c < |s.store| && Target(s, i) != Some(c)
    ensures var t := Step(s, i).state; c < |t.store| && t.store[c] == s.store[c]
  {
  }

  /** A variable that has left the stack never comes back onto it: its place is taken by new variables. */
  lemma {:induction false} NeverBack(s: State, code: seq<Instr>, c: nat)
    requires ProperRun(s, code) && Run(s, code).Ran? && c < |s.store| && c !in s.slots
    ensures var t := Run(s, code).state; c < |t.store| && c !in t.slots
    decreases |code|
  {
    if code != [] && s.frames != [] {
      var t := Step(s, code[0]).state;
      assert forall k: nat :: k <= |s.slots| ==> c !in s.slots[..k];
      assert c < |t.store| && c !in t.slots;
      NeverBack(t, code[1..], c);
    }
  }

  /** An instruction finds the stack, or the frames, about to become full. */
  predicate NeedsRoom(s: State, i: Instr) {
    match i
    case Push(_) => |s.slots| + 1 >= s.room
    case GetLocal(_) => |s.slots| + 1 >= s.room
    case GetUpvalue(_) => |s.slots| + 1 >= s.room
    case MakeClosure(_, _) => |s.slots| + 1 >= s.room
    case Call(n) => Callable(s, n) && |s.frames| + 1 >= s.depth
    case _ => false
  }

  /** An instruction is safe exactly if it needs no room or the stack can be doubled. */
  lemma SafeWhen(s: State, i: Instr)
    requires Proper(s, i)
    ensures Step(s, i) == Overrun <==> NeedsRoom(s, i) && !CanGrow(s)
    ensures Step(s, i) == RuntimeError <==> i.Call? && !Callable(s, i.args)
  {
  }

  /** What the sizes have in common in all states with low stacks. */
  predicate Sane(s: State) {
    s.depth in {8, 16, 32, 64, 128, 256} && s.room <= 64 * s.depth && |s.frames| < s.depth
  }

  /** The stack holds at most 255 values before every instruction. */
  predicate StaysLow(s: State, code: seq<Instr>)
    requires ProperRun(s, code)
    decreases |code|
  {
    |s.slots| <= 255 &&
    (code == [] || s.frames == [] || !Step(s, code[0]).Ran? || StaysLow(Step(s, code[0]).state, code[1..]))
  }

  lemma SaneStep(s: State, i: Instr)
    requires Sane(s) && Proper(s, i) && |s.slots| <= 255 && |s.frames| <= FRAMES_MAX
    ensures Step(s, i) != Overrun && (Step(s, i).Ran? ==> Sane(Step(s, i).state) && |Step(s, i).state.frames| <= FRAMES_MAX)
  {
    hide Cells, Locals, Load;
  }

  /** A run on which the stack stays low never runs over, however deep its calls are. */
  lemma {:induction false} LowStacksSuffice(s: State, code: seq<Instr>)
    requires Sane(s) && |s.frames| <= FRAMES_MAX && ProperRun(s, code) && StaysLow(s, code)
    ensures Run(s, code) != Overrun
    decreases |code|
  {
    hide Step, Sane, Proper;
    if code != [] && s.frames != [] {
      SaneStep(s, code[0]);
      if Step(s, code[0]).Ran? {
        LowStacksSuffice(Step(s, code[0]).state, code[1..]);
      }
    }
  }

  function Pushes(n: nat): seq<Instr> {
    if n == 0 then [] else [Push(Plain(0))] + Pushes(n - 1)
  }

  /** The main function calls itself, and so on. */
  function SelfCalls(n: nat): seq<Instr> {
    if n == 0 then [] else [Push(Closure(0)), Call(0)] + SelfCalls(n - 1)
  }

  /** A run has begun with a function without parameters. */
  predicate Recursive(s: State) {
    s.funcs != [] && s.funcs[0].arity == 0 && s.frames != [] && Current(s).base < |s.slots| && s.depth == FRAMES_MIN &&
    |s.slots| < s.room && s.room in {128, 256, 512, 1024, 2048, 4096, 8192, 16384} &&
    forall i :: 0 <= i < |s.slots| ==> s.slots[i] < |s.store|
  }

  lemma PushRecursive(s: State, v: Value)
    requires Recursive(s) && |s.slots| < 16000
    ensures var o := PushStep(s, v);
      o.Ran? && Recursive(o.state) && |o.state.slots| == |s.slots| + 1 && o.state.frames == s.frames && o.state.room >= s.room &&
      Load(o.state, o.state.slots[|s.slots|]) == v
  {
  }

  lemma {:induction false} DeepCalls(s: State, n: nat)
    requires Recursive(s) && s.room == 16384 && |s.slots| + n < 16000 && n >= 1 && |s.frames| + n == FRAMES_MIN
    ensures ProperRun(s, SelfCalls(n)) && Run(s, SelfCalls(n)) == Overrun
    decreases n
  {
    var code := SelfCalls(n);
    PushRecursive(s, Closure(0));
    var t := PushStep(s, Closure(0)).state;
    assert code[0] == Push(Closure(0)) && code[1..][0] == Call(0) && code[1..][1..] == SelfCalls(n - 1);
    assert Callable(t, 0);
    if n > 1 {
      var u := Step(t, Call(0)).state;
      DeepCalls(u, n - 1);
    }
  }

  /** A run whose first instruction goes well. */
  lemma RunsOn(s: State, code: seq<Instr>, t: State)
    requires code != [] && s.frames != [] && Proper(s, code[0]) && Step(s, code[0]) == Ran(t) && ProperRun(t, code[1..])
    ensures ProperRun(s, code) && Run(s, code) == Run(t, code[1..])
  {
  }

  lemma {:induction false} TallCalls(s: State, n: nat)
    requires Recursive(s) && |s.frames| == 1 && |s.slots| + n == 9000
    ensures ProperRun(s, Pushes(n) + SelfCalls(7)) && Run(s, Pushes(n) + SelfCalls(7)) == Overrun
    decreases n
  {
    var code := Pushes(n) + SelfCalls(7);
    if n == 0 {
      assert code == SelfCalls(7);
      DeepCalls(s, 7);
    } else {
      assert code[0] == Push(Plain(0)) && code[1..] == Pushes(n - 1) + SelfCalls(7);
      PushRecursive(s, Plain(0));
      TallCalls(PushStep(s, Plain(0)).state, n - 1);
      hide Recursive, PushStep, SelfCalls, Pushes, Run, ProperRun;
      RunsOn(s, code, PushStep(s, Plain(0)).state);
    }
  }

  /** Where a main function without parameters starts. */
  const MAIN: State := State([0], [Closure(0)], [Frame(0, 0)], [Func(0, [])], {}, [], STACK_MIN, FRAMES_MIN)

  /**
    The seventh call overruns a stack that is little more than half full: enlarging the
    frames doubles the stack, which is at its greatest size already.
   */
  lemma CallOverruns()
    ensures ProperRun(MAIN, Pushes(8999) + SelfCalls(7)) && Run(MAIN, Pushes(8999) + SelfCalls(7)) == Overrun
  {
    TallCalls(MAIN, 8999);
  }
}
