/**
  The instruction set: opcode numbers in the order of the enumeration of
  include/jml/jml_bytecode.h, the operand bytes the virtual machine reads for each
  opcode, the length table that walks over code, and the encoding and decoding of
  the instructions the modelled fragment of the language compiles to.
 */
module Bytecode {
  import opened Wrappers

  type Byte = x: int | 0 <= x < 256

  const OP_NOP: Byte := 0
  const OP_POP: Byte := 1
  const OP_CONST: Byte := 5
  const OP_CONST_EXTENDED: Byte := 6
  const OP_NONE: Byte := 7
  const OP_TRUE: Byte := 8
  const OP_FALSE: Byte := 9
  const OP_BOOL: Byte := 10
  const OP_ADD: Byte := 11
  const OP_NOT: Byte := 17
  const OP_NEG: Byte := 18
  const OP_CONTAIN: Byte := 26
  const OP_JUMP: Byte := 27
  const OP_JUMP_IF_FALSE: Byte := 28
  const OP_LOOP: Byte := 29
  const OP_TRY_INVOKE: Byte := 34
  const OP_TRY_SUPER_INVOKE_EXTENDED: Byte := 37
  const OP_CLOSURE: Byte := 40
  const OP_CLOSURE_EXTENDED: Byte := 41
  const OP_RETURN: Byte := 42
  const OP_SET_LOCAL: Byte := 49
  const OP_GET_LOCAL: Byte := 51
  const OP_SET_GLOBAL: Byte := 58
  const OP_SET_GLOBAL_EXTENDED: Byte := 59
  const OP_GET_GLOBAL: Byte := 60
  const OP_GET_GLOBAL_EXTENDED: Byte := 61
  const OP_DEF_GLOBAL: Byte := 62
  const OP_DEF_GLOBAL_EXTENDED: Byte := 63
  const OP_END: Byte := 85

  /** Stands for a `break` until its loop ends; UINT8_MAX >> 1, not an opcode. */
  const PLACEHOLDER: Byte := 127

  /** Operators that take their two operands from the stack, in opcode order. */
  datatype BinOp =
    | Add | Sub | Mul | Pow | Div | Mod
    | Equal | Greater | GreaterEq | Less | LessEq | NotEq
    | Concat | Contain

  function BinOpCode(op: BinOp): Byte {
    match op
    case Add => 11
    case Sub => 12
    case Mul => 13
    case Pow => 14
    case Div => 15
    case Mod => 16
    case Equal => 19
    case Greater => 20
    case GreaterEq => 21
    case Less => 22
    case LessEq => 23
    case NotEq => 24
    case Concat => 25
    case Contain => 26
  }

  function CodeBinOp(op: Byte): Option<BinOp> {
    if op == 11 then Some(Add)
    else if op == 12 then Some(Sub)
    else if op == 13 then Some(Mul)
    else if op == 14 then Some(Pow)
    else if op == 15 then Some(Div)
    else if op == 16 then Some(Mod)
    else if op == 19 then Some(Equal)
    else if op == 20 then Some(Greater)
    else if op == 21 then Some(GreaterEq)
    else if op == 22 then Some(Less)
    else if op == 23 then Some(LessEq)
    else if op == 24 then Some(NotEq)
    else if op == 25 then Some(Concat)
    else if op == 26 then Some(Contain)
    else None
  }

  /**
    The length table: the number of bytes, opcode included, that the walk of
    jml_loop_end steps over. The closure opcodes, whose length depends on the
    constant pool, are not covered by it.
   */
  function InstructionOffset(op: Byte): nat {
    if op in {5, 44, 46, 66, 68, 75, 30, 49, 51, 53, 55, 77, 79} then 2
    else if op in {58, 60, 62, 64, 34, 36, 81, 27, 28, 29, 31, 32, 38,
                   6, 45, 47, 67, 69, 76, 50, 52, 54, 56, 78, 80} then 3
    else if op in {72, 74, 83} then 4
    else if op in {59, 61, 63, 65, 33, 39, 82, 35, 37} then 5
    else if op in {73, 84} then 7
    else 1
  }

  /**
    How the machine finds the code for an opcode. The table of addresses lists the two
    super-invoke opcodes in front of the two try-super-invoke ones, the enumeration behind them.
   */
  datatype Dispatch = Switch | ComputedGoto

  /** The opcode whose code is run. */
  function Handler(op: Byte, d: Dispatch): Byte {
    if d == Switch then op
    else if op in {36, 37} then op + 2
    else if op in {38, 39} then op - 2
    else op
  }

  /** The number of operand bytes the code of an opcode consumes; that of OP_SWAP_LOCAL does nothing at all. */
  function OperandBytes(op: Byte): nat {
    if op in {5, 44, 46, 66, 68, 75, 30, 49, 51, 53, 55, 77, 79} then 1
    else if op in {58, 60, 62, 64, 81, 27, 28, 29, 31, 32, 38,
                   6, 45, 47, 67, 69, 76, 50, 52, 54, 56, 78, 80} then 2
    else if op in {72, 83, 34, 36} then 3
    else if op in {59, 61, 63, 65, 33, 39, 82} then 4
    else if op in {35, 37} then 5
    else if op in {73, 84} then 6
    else 0
  }

  /** The opcodes whose table entry covers exactly the bytes their own code reads. */
  predicate Walkable(op: Byte) {
    op <= OP_END && op !in {34, 35, 36, 37, 40, 41, 74}
  }

  /** The opcodes on which table and machine disagree. */
  function Misfits(d: Dispatch): set<Byte> {
    if d == Switch then {34, 35, 36, 37, 74} else {34, 35, 38, 39, 74}
  }

  /**
    The table and the machine disagree on the two try-invoke opcodes and OP_SWAP_LOCAL, and on
    the try-super-invoke opcodes or, where the code is found by addresses, the super-invoke ones.
   */
  lemma TableMatchesMachine(op: Byte, d: Dispatch)
    requires op != OP_CLOSURE && op != OP_CLOSURE_EXTENDED
    ensures InstructionOffset(op) == 1 + OperandBytes(Handler(op, d)) <==> op !in Misfits(d)
    ensures op <= OP_END && op !in Misfits(Switch) <==> Walkable(op)
    ensures Handler(op, d) != op <==> d == ComputedGoto && op in {36, 37, 38, 39}
  {
  }

  /** Instructions of the fragment; jump distances count from the next instruction. */
  datatype Instr =
    | Pop
    | Const(index: nat)
    | PushNone
    | PushTrue
    | PushFalse
    | ToBool
    | Binary(op: BinOp)
    | Not
    | Neg
    | Jump(offset: int)
    | JumpIfFalse(offset: int)
    | Loop(offset: int)
    | GetLocal(slot: nat)
    | SetLocal(slot: nat)
    | GetGlobal(owner: nat, index: nat)
    | SetGlobal(owner: nat, index: nat)
    | DefGlobal(owner: nat, index: nat)
    | Return
    | End
    | BreakHole

  function Hi(x: int): Byte { (x / 256) % 256 }

  function Lo(x: int): Byte { x % 256 }

  function Short(hi: Byte, lo: Byte): nat { hi * 256 + lo }

  function Encode1(op: Byte, ext: Byte, a: nat): seq<Byte> {
    if a > 255 then [ext, Hi(a), Lo(a)] else [op, a]
  }

  function Encode2(op: Byte, ext: Byte, a: nat, b: nat): seq<Byte> {
    if a > 255 || b > 255 then [ext, Hi(a), Lo(a), Hi(b), Lo(b)] else [op, a, b]
  }

  function Encode(i: Instr): seq<Byte> {
    match i
    case Pop => [OP_POP]
    case Const(index) => Encode1(OP_CONST, OP_CONST_EXTENDED, index)
    case PushNone => [OP_NONE]
    case PushTrue => [OP_TRUE]
    case PushFalse => [OP_FALSE]
    case ToBool => [OP_BOOL]
    case Binary(op) => [BinOpCode(op)]
    case Not => [OP_NOT]
    case Neg => [OP_NEG]
    case Jump(offset) => [OP_JUMP, Hi(offset), Lo(offset)]
    case JumpIfFalse(offset) => [OP_JUMP_IF_FALSE, Hi(offset), Lo(offset)]
    case Loop(offset) => [OP_LOOP, Hi(offset), Lo(offset)]
    case GetLocal(slot) => [OP_GET_LOCAL, Lo(slot)]
    case SetLocal(slot) => [OP_SET_LOCAL, Lo(slot)]
    case GetGlobal(o, index) => Encode2(OP_GET_GLOBAL, OP_GET_GLOBAL_EXTENDED, o, index)
    case SetGlobal(o, index) => Encode2(OP_SET_GLOBAL, OP_SET_GLOBAL_EXTENDED, o, index)
    case DefGlobal(o, index) => Encode2(OP_DEF_GLOBAL, OP_DEF_GLOBAL_EXTENDED, o, index)
    case Return => [OP_RETURN]
    case End => [OP_END]
    case BreakHole => [PLACEHOLDER, 255, 255]
  }

  /** The operands survive the widths they are written with. */
  predicate Fits(i: Instr) {
    match i
    case Const(index) => index <= 65535
    case Jump(offset) => 0 <= offset <= 65535
    case JumpIfFalse(offset) => 0 <= offset <= 65535
    case Loop(offset) => 0 <= offset <= 65535
    case GetLocal(slot) => slot <= 255
    case SetLocal(slot) => slot <= 255
    case GetGlobal(o, index) => o <= 65535 && index <= 65535
    case SetGlobal(o, index) => o <= 65535 && index <= 65535
    case DefGlobal(o, index) => o <= 65535 && index <= 65535
    case _ => true
  }

  function Len(i: Instr): (n: nat)
    ensures n == |Encode(i)| && 1 <= n <= 5
  {
    match i
    case Const(index) => if index > 255 then 3 else 2
    case Jump(_) => 3
    case JumpIfFalse(_) => 3
    case Loop(_) => 3
    case BreakHole => 3
    case GetLocal(_) => 2
    case SetLocal(_) => 2
    case GetGlobal(o, index) => if o > 255 || index > 255 then 5 else 3
    case SetGlobal(o, index) => if o > 255 || index > 255 then 5 else 3
    case DefGlobal(o, index) => if o > 255 || index > 255 then 5 else 3
    case _ => 1
  }

  /** An instruction read from a byte string, and the position behind it. */
  datatype Decoded = Decoded(instr: Instr, next: nat)

  /** The instruction an opcode and its operand bytes stand for, if it belongs to the fragment. */
  function Build(op: Byte, args: seq<Byte>): Option<Instr>
    requires |args| == OperandBytes(op)
  {
    match op
    case 1 => Some(Pop)
    case 5 => Some(Const(args[0]))
    case 6 => Some(Const(Short(args[0], args[1])))
    case 7 => Some(PushNone)
    case 8 => Some(PushTrue)
    case 9 => Some(PushFalse)
    case 10 => Some(ToBool)
    case 17 => Some(Not)
    case 18 => Some(Neg)
    case 27 => Some(Jump(Short(args[0], args[1])))
    case 28 => Some(JumpIfFalse(Short(args[0], args[1])))
    case 29 => Some(Loop(Short(args[0], args[1])))
    case 42 => Some(Return)
    case 49 => Some(SetLocal(args[0]))
    case 51 => Some(GetLocal(args[0]))
    case 58 => Some(SetGlobal(args[0], args[1]))
    case 59 => Some(SetGlobal(Short(args[0], args[1]), Short(args[2], args[3])))
    case 60 => Some(GetGlobal(args[0], args[1]))
    case 61 => Some(GetGlobal(Short(args[0], args[1]), Short(args[2], args[3])))
    case 62 => Some(DefGlobal(args[0], args[1]))
    case 63 => Some(DefGlobal(Short(args[0], args[1]), Short(args[2], args[3])))
    case 85 => Some(End)
    case _ => match CodeBinOp(op) case Some(b) => Some(Binary(b)) case None => None
  }

  function Decode(code: seq<Byte>, pc: nat): Option<Decoded> {
    if pc >= |code| then None
    else
      var next := pc + 1 + OperandBytes(code[pc]);
      if next > |code| then None
      else
        match Build(code[pc], code[pc + 1..next])
        case Some(i) => Some(Decoded(i, next))
        case None => None
  }

  lemma ShortOfHiLo(x: int)
    requires 0 <= x <= 65535
    ensures Short(Hi(x), Lo(x)) == x
  {
  }

  lemma BinOpRoundTrip(op: BinOp)
    ensures CodeBinOp(BinOpCode(op)) == Some(op) && OperandBytes(BinOpCode(op)) == 0
    ensures BinOpCode(op) !in {1, 5, 6, 7, 8, 9, 10, 17, 18, 27, 28, 29, 42, 49, 51, 58, 59, 60, 61, 62, 63, 85}
  {
  }

  /** Rebuilding an instruction from its own bytes gives it back. */
  lemma BuildEncode(i: Instr)
    requires Fits(i) && i != BreakHole
    ensures OperandBytes(Encode(i)[0]) == |Encode(i)| - 1
    ensures Build(Encode(i)[0], Encode(i)[1..]) == Some(i)
  {
    match i
    case Const(x) => ShortOfHiLo(x);
    case Jump(x) => ShortOfHiLo(x);
    case JumpIfFalse(x) => ShortOfHiLo(x);
    case Loop(x) => ShortOfHiLo(x);
    case GetGlobal(o, x) => ShortOfHiLo(o); ShortOfHiLo(x);
    case SetGlobal(o, x) => ShortOfHiLo(o); ShortOfHiLo(x);
    case DefGlobal(o, x) => ShortOfHiLo(o); ShortOfHiLo(x);
    case Binary(op) => BinOpRoundTrip(op);
    case _ =>
  }

  /** Decoding, at any position of any code, undoes encoding. */
  lemma DecodeEncode(code: seq<Byte>, pc: nat, i: Instr)
    requires Fits(i) && i != BreakHole
    requires pc + Len(i) <= |code| && code[pc..pc + Len(i)] == Encode(i)
    ensures Decode(code, pc) == Some(Decoded(i, pc + Len(i)))
  {
    var e, at := Encode(i), code[pc..pc + Len(i)];
    BuildEncode(i);
    assert code[pc] == at[0] == e[0];
    assert code[pc + 1..pc + Len(i)] == at[1..];
  }

  /** The bytes of an instruction list. */
  function EncodeAll(ins: seq<Instr>): seq<Byte> {
    if ins == [] then [] else Encode(ins[0]) + EncodeAll(ins[1..])
  }

  function Size(ins: seq<Instr>): (n: nat)
    ensures n == |EncodeAll(ins)|
  {
    if ins == [] then 0 else Len(ins[0]) + Size(ins[1..])
  }

  predicate AllFit(ins: seq<Instr>) {
    forall i :: 0 <= i < |ins| ==> Fits(ins[i])
  }

  predicate NoHoles(ins: seq<Instr>) {
    forall i :: 0 <= i < |ins| ==> ins[i] != BreakHole
  }

  lemma {:induction false} EncodeAllAppend(a: seq<Instr>, b: seq<Instr>)
    ensures EncodeAll(a + b) == EncodeAll(a) + EncodeAll(b)
    ensures Size(a + b) == Size(a) + Size(b)
  {
    if a == [] {
      assert a + b == b;
    } else {
      assert (a + b)[0] == a[0] && (a + b)[1..] == a[1..] + b;
      EncodeAllAppend(a[1..], b);
    }
  }

  /** What the machine fetches at a position: the instruction there and where the next one starts. */
  type Fetch = nat -> Option<Decoded>

  function FetchFrom(code: seq<Byte>): Fetch {
    (pc: nat) => Decode(code, pc)
  }

  /** The machine, started at `pc`, would fetch exactly the instructions `ins`, one after another. */
  predicate InstrsAt(fetch: Fetch, pc: nat, ins: seq<Instr>)
    decreases |ins|
  {
    ins == [] ||
    (fetch(pc) == Some(Decoded(ins[0], pc + Len(ins[0]))) && InstrsAt(fetch, pc + Len(ins[0]), ins[1..]))
  }

  lemma {:induction false} InstrsAtAppend(fetch: Fetch, pc: nat, a: seq<Instr>, b: seq<Instr>)
    ensures InstrsAt(fetch, pc, a + b) <==> InstrsAt(fetch, pc, a) && InstrsAt(fetch, pc + Size(a), b)
    decreases |a|
  {
    if a == [] {
      assert a + b == b;
    } else {
      assert (a + b)[0] == a[0] && (a + b)[1..] == a[1..] + b;
      InstrsAtAppend(fetch, pc + Len(a[0]), a[1..], b);
    }
  }

  /** Encoded instructions are read back as themselves wherever they are placed. */
  lemma {:induction false} EncodedIsReadable(before: seq<Byte>, ins: seq<Instr>, after: seq<Byte>, fetch: Fetch)
    requires AllFit(ins) && NoHoles(ins)
    requires fetch == FetchFrom(before + EncodeAll(ins) + after)
    ensures InstrsAt(fetch, |before|, ins)
    decreases |ins|
  {
    if ins != [] {
      var head, tail := Encode(ins[0]), EncodeAll(ins[1..]);
      assert before + EncodeAll(ins) + after == before + head + (tail + after);
      var code := before + head + (tail + after);
      assert code[|before|..|before| + Len(ins[0])] == head;
      DecodeEncode(code, |before|, ins[0]);
      assert before + EncodeAll(ins) + after == (before + head) + tail + after;
      EncodedIsReadable(before + head, ins[1..], after, fetch);
    }
  }
}
