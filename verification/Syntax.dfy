/**
  Tokens, binding powers and syntax trees of the modelled fragment: literals, variables,
  operators, assignment, `if`/`else`, `while` with `break` and `skip`, `let` and blocks.
 */
module Syntax {
  import opened Bytecode

  /** A number is known by the 64-bit pattern of its double; its arithmetic is a parameter. */
  datatype Double = Double(bits: nat)

  datatype Literal =
    | NoneLit
    | BoolLit(value: bool)
    | NumberLit(number: Double)
    | StringLit(text: string)

  /**
    `Lost` is what the parser makes of a binary operator followed by a newline: both
    operands are compiled and the operator is not.
   */
  datatype Expr =
    | Lit(literal: Literal)
    | Var(name: string)
    | Assign(target: string, value: Expr)
    | Update(target: string, op: BinOp, value: Expr)
    | NotE(operand: Expr)
    | NegE(operand: Expr)
    | Bin(op: BinOp, left: Expr, right: Expr)
    | And(left: Expr, right: Expr)
    | Or(left: Expr, right: Expr)
    | Lost(left: Expr, right: Expr)

  /** A statement list is a chain of `Seq` ended by `Nop`. */
  datatype Stmt =
    | Nop
    | Seq(first: Stmt, rest: Stmt)
    | ExprS(e: Expr)
    | LetS(name: string, init: Expr)
    | IfS(cond: Expr, yes: Stmt, no: Stmt)
    | WhileS(cond: Expr, body: Stmt)
    | BreakS
    | SkipS
    | BlockS(body: Stmt)

  datatype Token =
    | LParen | RParen | LSquare | LBrace | RBrace | Semi | Dot | Pipe | Arrow
    | BinTok(op: BinOp)
    | EqualTok
    | UpdateTok(op: BinOp)
    | AndTok | OrTok | NotTok
    | WhileTok | BreakTok | SkipTok | IfTok | ElseTok | LetTok
    | LitTok(literal: Literal)
    | NameTok(name: string)
    | Line
    | Eof

  const PREC_NONE: nat := 0
  const PREC_ASSIGNMENT: nat := 1
  const PREC_OR: nat := 2
  const PREC_AND: nat := 3
  const PREC_EQUALITY: nat := 4
  const PREC_COMPARISON: nat := 5
  const PREC_TERM: nat := 6
  const PREC_FACTOR: nat := 7
  const PREC_UNARY: nat := 8
  const PREC_EXPONENT: nat := 9
  const PREC_CALL: nat := 10
  const PREC_PRIMARY: nat := 11

  /** The precedence column of the rule table for the binary operators. */
  function BinPrec(op: BinOp): (p: nat)
    ensures PREC_EQUALITY <= p <= PREC_EXPONENT && p != PREC_UNARY
  {
    match op
    case Concat => PREC_TERM
    case Add => PREC_TERM
    case Sub => PREC_TERM
    case Mul => PREC_FACTOR
    case Pow => PREC_EXPONENT
    case Div => PREC_FACTOR
    case Mod => PREC_FACTOR
    case Equal => PREC_EQUALITY
    case NotEq => PREC_EQUALITY
    case Greater => PREC_COMPARISON
    case GreaterEq => PREC_COMPARISON
    case Less => PREC_COMPARISON
    case LessEq => PREC_COMPARISON
    case Contain => PREC_COMPARISON
  }

  /** The precedence column of the rule table. */
  function Prec(t: Token): nat {
    match t
    case LParen => PREC_CALL
    case LSquare => PREC_CALL
    case Dot => PREC_CALL
    case Pipe => PREC_CALL
    case BinTok(op) => BinPrec(op)
    case AndTok => PREC_AND
    case OrTok => PREC_OR
    case _ => PREC_NONE
  }

  /** The operators that have an assigning form. */
  predicate HasUpdate(op: BinOp) {
    op in {Concat, Add, Sub, Mul, Pow, Div, Mod}
  }

  predicate IsAssignTok(t: Token) {
    t.EqualTok? || t.UpdateTok?
  }

  /** How tightly the outermost construct of an expression binds. */
  function PrecOf(e: Expr): nat {
    match e
    case Lit(_) => PREC_PRIMARY
    case Var(_) => PREC_PRIMARY
    case Assign(_, _) => PREC_ASSIGNMENT
    case Update(_, _, _) => PREC_ASSIGNMENT
    case NotE(_) => PREC_UNARY
    case NegE(_) => PREC_UNARY
    case Bin(op, _, _) => BinPrec(op)
    case And(_, _) => PREC_AND
    case Or(_, _) => PREC_OR
    case Lost(_, _) => PREC_NONE
  }

  /** No operator was lost, and every assigning operator has an assigning form. */
  predicate Clean(e: Expr) {
    match e
    case Lit(_) => true
    case Var(_) => true
    case Assign(_, v) => Clean(v)
    case Update(_, op, v) => HasUpdate(op) && Clean(v)
    case NotE(a) => Clean(a)
    case NegE(a) => Clean(a)
    case Bin(_, l, r) => Clean(l) && Clean(r)
    case And(l, r) => Clean(l) && Clean(r)
    case Or(l, r) => Clean(l) && Clean(r)
    case Lost(_, _) => false
  }

  predicate CleanS(s: Stmt) {
    match s
    case Nop => true
    case Seq(a, b) => CleanS(a) && CleanS(b)
    case ExprS(e) => Clean(e)
    case LetS(_, e) => Clean(e)
    case IfS(c, y, n) => Clean(c) && CleanS(y) && CleanS(n)
    case WhileS(c, b) => Clean(c) && CleanS(b)
    case BreakS => true
    case SkipS => true
    case BlockS(b) => CleanS(b)
  }

  /** The shape the parser gives to a statement list. */
  predicate IsList(s: Stmt) {
    match s
    case Nop => true
    case Seq(a, b) => IsItem(a) && IsList(b)
    case _ => false
  }

  predicate IsItem(s: Stmt) {
    match s
    case Nop => false
    case Seq(_, _) => false
    case IfS(_, y, n) => IsList(y) && (IsList(n) || (n.IfS? && IsItem(n)))
    case WhileS(_, b) => IsList(b)
    case BlockS(b) => IsList(b)
    case _ => true
  }
}
