/**
  The bytes of every instruction, by the places of the opcodes in the enumeration of
  include/jml/jml_bytecode.h: operands of two bytes have the high one first, and an extended opcode
  stands next to the one it extends.
 */
module Opcodes {
  import opened Bytecode

  /** Instructions without operands. */
  lemma Plain()
    ensures Encode(Pop) == [1] && Encode(PushNone) == [7] && Encode(PushTrue) == [8] && Encode(PushFalse) == [9]
    ensures Encode(ToBool) == [10] && Encode(Not) == [17] && Encode(Neg) == [18] && Encode(Return) == [42] && Encode(End) == [85]
  {
  }

  /** Operators, in the order of the enumeration. */
  lemma Operators()
    ensures Encode(Binary(Add)) == [11] && Encode(Binary(Sub)) == [12] && Encode(Binary(Mul)) == [13] && Encode(Binary(Pow)) == [14]
    ensures Encode(Binary(Div)) == [15] && Encode(Binary(Mod)) == [16] && Encode(Binary(Concat)) == [25] && Encode(Binary(Contain)) == [26]
  {
  }

  lemma Comparisons()
    ensures Encode(Binary(Equal)) == [19] && Encode(Binary(Greater)) == [20] && Encode(Binary(GreaterEq)) == [21]
    ensures Encode(Binary(Less)) == [22] && Encode(Binary(LessEq)) == [23] && Encode(Binary(NotEq)) == [24]
  {
  }

  /** Instructions with operands of two bytes, `n` = 256 * a + b. */
  lemma Wide(a: Byte, b: Byte)
    ensures var n := 256 * a + b;
      && Encode(Jump(n)) == [27, a, b] && Encode(JumpIfFalse(n)) == [28, a, b] && Encode(Loop(n)) == [29, a, b]
      && (a != 0 ==> Encode(Const(n)) == [6, a, b])
    ensures Encode(BreakHole) == [0x7F, 0xFF, 0xFF]
  {
  }

  /** Instructions with operands of one byte. */
  lemma Narrow(o: Byte, k: Byte)
    ensures Encode(Const(k)) == [5, k] && Encode(SetLocal(k)) == [49, k] && Encode(GetLocal(k)) == [51, k]
    ensures Encode(SetGlobal(o, k)) == [58, o, k] && Encode(GetGlobal(o, k)) == [60, o, k] && Encode(DefGlobal(o, k)) == [62, o, k]
  {
  }

  /** A global has both operands in two bytes where one of them needs them: its owner, then its name. */
  lemma WideGlobal(c: Byte, d: Byte, a: Byte, b: Byte)
    requires c != 0 || a != 0
    ensures var o, n := 256 * c + d, 256 * a + b;
      && Encode(SetGlobal(o, n)) == [59, c, d, a, b] && Encode(GetGlobal(o, n)) == [61, c, d, a, b] && Encode(DefGlobal(o, n)) == [63, c, d, a, b]
  {
  }
}
