/**
  The single-pass compiler: it reads tokens, keeps the locals of the function it compiles,
  and appends bytes to the code as it goes, patching jumps once their targets are known.

  Every method is proved to append exactly the code of the tree that the tokens drive it
  through, and to report an error exactly if there is no such tree, a name or declaration is
  objectionable, or an operand does not fit. After an error the modelled compiler stops; the
  source goes on looking for further errors and then throws the code away.
 */
module SinglePass {
  import opened Wrappers
  import opened Bytecode
  import opened Syntax
  import opened Parser
  import opened Semantics
  import opened CodeGen
  import opened LoopEnd

  /** An expression the compiler accepts where the pool holds `base` constants. */
  predicate GoodE(e: Expr, sc: Scope, base: nat) {
    OkE(e, sc) && AllFit(GenE(e, sc, base))
  }

  /** The innermost loop being compiled. */
  datatype LoopInfo = LoopInfo(start: nat, body: nat, exit: nat, enclosing: Option<LoopInfo>)

  lemma FitAppend(a: seq<Instr>, b: seq<Instr>)
    ensures AllFit(a + b) <==> AllFit(a) && AllFit(b)
  {
    if AllFit(a + b) {
      assert forall i :: 0 <= i < |a| ==> (a + b)[i] == a[i];
      assert forall i :: 0 <= i < |b| ==> (a + b)[|a| + i] == b[i];
    }
  }

  lemma EncodeOne(i: Instr)
    ensures EncodeAll([i]) == Encode(i)
  {
    assert [i][1..] == [];
  }

  /** The precedence the right operand of an infix operator is read with. */
  function InfixPrec(t: Token, lost: bool): nat {
    match t
    case AndTok => PREC_AND
    case OrTok => PREC_OR
    case BinTok(op) => if lost then PREC_NONE + 1 else BinPrec(op) + 1
    case _ => PREC_NONE
  }

  predicate HasInfix(t: Token) {
    t.BinTok? || t == AndTok || t == OrTok
  }

  /** What an infix operator appends behind its left operand. */
  function InfixCode(t: Token, lost: bool, right: seq<Instr>): seq<Instr>
    requires HasInfix(t)
  {
    match t
    case AndTok => [JumpIfFalse(1 + Size(right)), Pop] + right + [ToBool]
    case OrTok => [JumpIfFalse(3), Jump(1 + Size(right)), Pop] + right + [ToBool]
    case BinTok(op) => if lost then right else right + [Binary(op)]
  }

  function InfixTree(t: Token, lost: bool, l: Expr, r: Expr): Expr
    requires HasInfix(t)
  {
    match t
    case AndTok => And(l, r)
    case OrTok => Or(l, r)
    case BinTok(op) => if lost then Lost(l, r) else Bin(op, l, r)
  }

  lemma InfixTreeCode(t: Token, lost: bool, l: Expr, r: Expr, sc: Scope, base: nat)
    requires HasInfix(t)
    ensures var e := InfixTree(t, lost, l, r);
            && GenE(e, sc, base) ==
               GenE(l, sc, base) + InfixCode(t, lost, GenE(r, sc, base + |ConstsE(l, sc)|))
            && ConstsE(e, sc) == ConstsE(l, sc) + ConstsE(r, sc)
            && (OkE(e, sc) <==> OkE(l, sc) && OkE(r, sc))
  {
    hide Size, Encode, EncodeAll, Len;
    match t
    case AndTok => AndCode(l, r, sc, base);
    case OrTok => OrCode(l, r, sc, base);
    case BinTok(op) => BinCode(op, l, r, sc, base);
  }

  lemma AndCode(l: Expr, r: Expr, sc: Scope, base: nat)
    ensures var right := GenE(r, sc, base + |ConstsE(l, sc)|);
            GenE(And(l, r), sc, base) == GenE(l, sc, base) + InfixCode(AndTok, false, right)
  {
    hide Size, Encode, EncodeAll, Len;
    var right := GenE(r, sc, base + |ConstsE(l, sc)|);
    Regroup(GenE(l, sc, base), [JumpIfFalse(1 + Size(right)), Pop], right, ToBool);
  }

  lemma OrCode(l: Expr, r: Expr, sc: Scope, base: nat)
    ensures var right := GenE(r, sc, base + |ConstsE(l, sc)|);
            GenE(Or(l, r), sc, base) == GenE(l, sc, base) + InfixCode(OrTok, false, right)
  {
    hide Size, Encode, EncodeAll, Len;
    var right := GenE(r, sc, base + |ConstsE(l, sc)|);
    Regroup(GenE(l, sc, base), [JumpIfFalse(3), Jump(1 + Size(right)), Pop], right, ToBool);
  }

  lemma BinCode(op: BinOp, l: Expr, r: Expr, sc: Scope, base: nat)
    ensures var right := GenE(r, sc, base + |ConstsE(l, sc)|);
            GenE(Bin(op, l, r), sc, base) == GenE(l, sc, base) + InfixCode(BinTok(op), false, right)
  {
    hide Size, Encode, EncodeAll, Len;
    var right := GenE(r, sc, base + |ConstsE(l, sc)|);
    assert GenE(l, sc, base) + right + [Binary(op)] == GenE(l, sc, base) + (right + [Binary(op)]);
  }

  lemma Regroup(a: seq<Instr>, b: seq<Instr>, c: seq<Instr>, i: Instr)
    ensures a + b + c + [i] == a + (b + c + [i])
  {
  }

  lemma InfixEnds(ts: seq<Token>, pos: nat, prec: nat, left: Expr)
    requires pos <= |ts| && prec > Prec(TokenAt(ts, pos))
    ensures ParseInfix(ts, pos, prec, left) == GoodExpr(left, pos)
  {
  }

  lemma InfixUnfold(ts: seq<Token>, pos: nat, prec: nat, left: Expr)
    requires pos < |ts| && prec <= Prec(ts[pos])
    ensures var after := SkipLines(ts, pos + 1);
            var lost := after != pos + 1;
            ParseInfix(ts, pos, prec, left) ==
            if !HasInfix(ts[pos]) then BadExpr(true)
            else
              match ParsePrec(ts, after, InfixPrec(ts[pos], lost))
              case BadExpr(away) => BadExpr(away)
              case GoodExpr(r, n) => ParseInfix(ts, n, prec, InfixTree(ts[pos], lost, left, r))
  {
  }

  lemma GoodInfix(t: Token, lost: bool, l: Expr, r: Expr, sc: Scope, base: nat)
    requires HasInfix(t)
    ensures var right := GenE(r, sc, base + |ConstsE(l, sc)|);
            GoodE(InfixTree(t, lost, l, r), sc, base) <==>
            GoodE(l, sc, base) && OkE(r, sc) && AllFit(InfixCode(t, lost, right))
  {
    hide AllFit, GenE, OkE, ConstsE, InfixCode;
    InfixTreeCode(t, lost, l, r, sc, base);
    FitAppend(GenE(l, sc, base), InfixCode(t, lost, GenE(r, sc, base + |ConstsE(l, sc)|)));
  }

  /** A tree the infix loop makes contains the tree it started with. */
  lemma {:induction false} InfixContains(ts: seq<Token>, pos: nat, prec: nat, left: Expr, sc: Scope, base: nat)
    requires pos <= |ts|
    ensures var r := ParseInfix(ts, pos, prec, left);
            r.GoodExpr? && GoodE(r.e, sc, base) ==> GoodE(left, sc, base)
    decreases |ts| - pos
  {
    hide GoodE, ParsePrec;
    if pos < |ts| && prec <= Prec(ts[pos]) && HasInfix(ts[pos]) {
      var after := SkipLines(ts, pos + 1);
      var lost := after != pos + 1;
      InfixUnfold(ts, pos, prec, left);
      match ParsePrec(ts, after, InfixPrec(ts[pos], lost))
      case BadExpr(_) =>
      case GoodExpr(r, n) =>
        InfixContains(ts, n, prec, InfixTree(ts[pos], lost, left, r), sc, base);
        GoodInfix(ts[pos], lost, left, r, sc, base);
    }
  }

  lemma {:induction false} SkippedIsLine(ts: seq<Token>, pos: nat)
    ensures var after := SkipLines(ts, pos); after != pos ==> pos < after <= |ts| && ts[after - 1] == Line
    decreases |ts| - pos
  {
    if TokenAt(ts, pos) == Line {
      SkippedIsLine(ts, pos + 1);
    }
  }

  /** Overwriting the operand of a jump that was emitted with a dummy one. */
  lemma Patched(a: seq<Byte>, op: Byte, b: seq<Byte>, j: int)
    ensures (a + [op, 255, 255] + b)[|a| + 1 := Hi(j)][|a| + 2 := Lo(j)] == a + [op, Hi(j), Lo(j)] + b
  {
  }

  /** A statement the compiler accepts. */
  predicate GoodS(s: Stmt, sc: Scope, depth: nat, base: nat, back: Option<nat>) {
    Ok(s, sc, depth, back.Some?) && AllFit(Gen(s, sc, depth, base, back))
  }

  /** How far behind the start of the innermost loop position `n` is. */
  function Back(loop: Option<LoopInfo>, n: nat): Option<nat> {
    if loop.Some? && loop.value.start <= n then Some(n - loop.value.start) else None
  }

  /** Statements already compiled, followed by what is still to come. */
  function Chain(items: seq<Stmt>, rest: Stmt): Stmt {
    if items == [] then rest else Seq(items[0], Chain(items[1..], rest))
  }

  lemma {:induction false} ChainMore(items: seq<Stmt>, s: Stmt, rest: Stmt)
    ensures Chain(items + [s], rest) == Chain(items, Seq(s, rest))
  {
    if items == [] {
      assert [s][1..] == [];
    } else {
      assert (items + [s])[1..] == items[1..] + [s];
      ChainMore(items[1..], s, rest);
    }
  }

  lemma {:induction false} ChainScope(items: seq<Stmt>, rest: Stmt, sc: Scope, depth: nat, inLoop: bool)
    ensures var front := Chain(items, Nop);
            var sc1, k := After(front, sc, depth), Consts(front, sc, depth);
            && After(Chain(items, rest), sc, depth) == After(rest, sc1, depth)
            && Consts(Chain(items, rest), sc, depth) == k + Consts(rest, sc1, depth)
            && (Ok(Chain(items, rest), sc, depth, inLoop) <==>
                  Ok(front, sc, depth, inLoop) && Ok(rest, sc1, depth, inLoop))
  {
    if items != [] {
      ChainScope(items[1..], rest, After(items[0], sc, depth), depth, inLoop);
    }
  }

  lemma {:induction false} ChainCode(items: seq<Stmt>, rest: Stmt, sc: Scope, depth: nat, base: nat, back: Option<nat>)
    ensures var front := Chain(items, Nop);
            var code := Gen(front, sc, depth, base, back);
            Gen(Chain(items, rest), sc, depth, base, back) ==
            code + Gen(rest, After(front, sc, depth), depth, base + |Consts(front, sc, depth)|, Further(back, Size(code)))
  {
    hide EncodeAll, Encode, Len, Size, Gen, After, Consts;
    if items == [] {
      NopGen(sc, depth, base, back);
      assert [] + Gen(rest, sc, depth, base, back) == Gen(rest, sc, depth, base, back);
    } else {
      var a, tail := items[0], items[1..];
      var first, sc1 := Gen(a, sc, depth, base, back), After(a, sc, depth);
      var base1, back1 := base + |Consts(a, sc, depth)|, Further(back, Size(first));
      var second := Gen(Chain(tail, Nop), sc1, depth, base1, back1);
      ChainCode(tail, rest, sc1, depth, base1, back1);
      SeqGen(a, Chain(tail, rest), sc, depth, base, back);
      SeqGen(a, Chain(tail, Nop), sc, depth, base, back);
      EncodeAllAppend(first, second);
      assert Further(back1, Size(second)) == Further(back, Size(first + second));
    }
  }

  lemma NopGen(sc: Scope, depth: nat, base: nat, back: Option<nat>)
    ensures Gen(Nop, sc, depth, base, back) == [] && Size([]) == 0
    ensures After(Nop, sc, depth) == sc && Consts(Nop, sc, depth) == []
    ensures Further(back, 0) == back
  {
  }

  /** Every local a statement declares belongs to the current scope. */
  predicate NewAt(sc: Scope, sc1: Scope, depth: nat) {
    sc <= sc1 && forall i :: |sc| <= i < |sc1| ==> sc1[i].depth == depth
  }

  lemma {:induction false} AfterIsNew(s: Stmt, sc: Scope, depth: nat)
    ensures NewAt(sc, After(s, sc, depth), depth)
  {
    match s
    case Seq(a, b) => AfterIsNew(a, sc, depth); AfterIsNew(b, After(a, sc, depth), depth);
    case IfS(_, y, n) => AfterIsNew(y, sc, depth); AfterIsNew(n, After(y, sc, depth), depth);
    case WhileS(_, b) => AfterIsNew(b, sc, depth);
    case _ =>
  }

  class Compiler {
    const tokens: seq<Token>
    var pos: nat
    var code: seq<Byte>
    var constants: seq<Value>
    var locals: Scope
    var scopeDepth: nat
    var loop: Option<LoopInfo>
    var wError: bool

    constructor (ts: seq<Token>)
      ensures tokens == ts && pos == 0 && code == [] && constants == [NoneV]
      ensures locals == MainScope && scopeDepth == 0 && loop == None && !wError
    {
      tokens := ts;
      pos, code, constants := 0, [], [NoneV];
      locals, scopeDepth, loop, wError := MainScope, 0, None, false;
    }

    /** Nothing has gone wrong so far. */
    predicate Ready()
      reads this
    {
      !wError && pos <= |tokens| && |locals| <= LOCAL_MAX
    }

    /** The expression read as `r` has been compiled behind `code0`, or rejected. */
    predicate Compiled(r: ParsedExpr, code0: seq<Byte>, consts0: seq<Value>)
      reads this
    {
      && (!wError <==> r.GoodExpr? && GoodE(r.e, locals, |consts0|))
      && (!wError ==>
            && pos == r.next
            && code == code0 + EncodeAll(GenE(r.e, locals, |consts0|))
            && constants == consts0 + ConstsE(r.e, locals))
    }

    method Error()
      modifies `wError
      ensures wError
    {
      wError := true;
    }

    /** The token the parser looks at. */
    function Current(): Token
      reads this
    {
      TokenAt(tokens, pos)
    }

    method Advance()
      modifies `pos
      ensures pos == old(pos) + 1
    {
      pos := pos + 1;
    }

    method MatchLine()
      requires pos <= |tokens|
      modifies `pos
      ensures pos == SkipLines(tokens, old(pos)) <= |tokens|
    {
      while Current() == Line
        invariant pos <= |tokens| && SkipLines(tokens, pos) == SkipLines(tokens, old(pos))
        decreases |tokens| - pos
      {
        Advance();
      }
    }

    method EmitByte(b: Byte)
      modifies `code
      ensures code == old(code) + [b]
    {
      code := code + [b];
    }

    method EmitShort(x: int)
      modifies `code
      ensures code == old(code) + [Hi(x), Lo(x)]
    {
      EmitByte(Hi(x));
      EmitByte(Lo(x));
    }

    method EmitExtended1(op: Byte, ext: Byte, a: nat)
      modifies `code
      ensures code == old(code) + Encode1(op, ext, a)
    {
      if a > 255 {
        EmitByte(ext);
        EmitShort(a);
      } else {
        EmitByte(op);
        EmitByte(a);
      }
    }

    method EmitExtended2(op: Byte, ext: Byte, a: nat, b: nat)
      modifies `code
      ensures code == old(code) + Encode2(op, ext, a, b)
    {
      if a > 255 || b > 255 {
        EmitByte(ext);
        EmitShort(a);
        EmitShort(b);
      } else {
        EmitByte(op);
        EmitByte(a);
        EmitByte(b);
      }
    }

    /** A jump whose target is not known yet; returns the position of its operand. */
    method EmitJump(op: Byte) returns (at: nat)
      modifies `code
      ensures code == old(code) + [op, 255, 255] && at == |old(code)| + 1
    {
      EmitByte(op);
      EmitByte(255);
      EmitByte(255);
      at := |code| - 2;
    }

    /** Lets the jump whose operand stands at `at` land at the end of the code. */
    method PatchJump(at: nat)
      requires at + 2 <= |code|
      modifies `code, `wError
      ensures var jump := |old(code)| - at - 2;
              code == old(code)[at := Hi(jump)][at + 1 := Lo(jump)] &&
              wError == (old(wError) || jump > 65535)
    {
      var jump := |code| - at - 2;
      if jump > 65535 {
        Error();
      }
      code := code[at := Hi(jump)];
      code := code[at + 1 := Lo(jump)];
    }

    method EmitLoop(start: nat)
      requires start <= |code|
      modifies `code, `wError
      ensures code == old(code) + Encode(Loop(|old(code)| + 3 - start))
      ensures wError == (old(wError) || !Fits(Loop(|old(code)| + 3 - start)))
    {
      EmitByte(OP_LOOP);
      var offset := |code| - start + 2;
      if offset > 65535 {
        Error();
      }
      EmitShort(offset);
    }

    method MakeConst(v: Value) returns (index: nat)
      modifies `constants, `wError
      ensures constants == old(constants) + [v]
      ensures wError == (old(wError) || |old(constants)| > 65535)
      ensures !wError ==> index == |old(constants)|
    {
      constants := constants + [v];
      index := |constants| - 1;
      if index > 65535 {
        Error();
        index := 0;
      }
    }

    /** The slot of a name among the locals, or -1. */
    method ResolveLocal(x: string) returns (slot: int)
      modifies `wError
      ensures slot == Resolve(locals, x)
      ensures wError == (old(wError) || !OkName(x, locals))
    {
      slot := |locals| - 1;
      assert locals[..|locals|] == locals;
      while slot >= 0 && locals[slot].name != x
        invariant -1 <= slot < |locals|
        invariant Resolve(locals[..slot + 1], x) == Resolve(locals, x)
      {
        assert locals[..slot + 1][..slot] == locals[..slot];
        slot := slot - 1;
      }
      if slot >= 0 && locals[slot].depth == -1 {
        Error();
      }
    }

    method EmitGet(global: bool, arg: nat)
      requires !global ==> arg <= 255
      modifies `code
      ensures code == old(code) + Encode(if global then GetGlobal(0, arg) else GetLocal(arg))
    {
      if global {
        EmitExtended2(OP_GET_GLOBAL, OP_GET_GLOBAL_EXTENDED, 0, arg);
      } else {
        EmitByte(OP_GET_LOCAL);
        EmitByte(arg);
      }
    }

    method EmitSet(global: bool, arg: nat)
      requires !global ==> arg <= 255
      modifies `code
      ensures code == old(code) + Encode(if global then SetGlobal(0, arg) else SetLocal(arg))
    {
      if global {
        EmitExtended2(OP_SET_GLOBAL, OP_SET_GLOBAL_EXTENDED, 0, arg);
      } else {
        EmitByte(OP_SET_LOCAL);
        EmitByte(arg);
      }
    }

    /** jml_number, jml_string, jml_literal. */
    method EmitLiteral(l: Literal)
      requires !wError
      modifies `code, `constants, `wError
      ensures wError <==> !Fits(GenLiteral(l, |old(constants)|))
      ensures !wError ==> code == old(code) + Encode(GenLiteral(l, |old(constants)|))
      ensures !wError ==> constants == old(constants) + ConstsE(Lit(l), locals)
    {
      match l
      case NoneLit => EmitByte(OP_NONE);
      case BoolLit(b) => EmitByte(if b then OP_TRUE else OP_FALSE);
      case _ =>
        var index := MakeConst(LiteralValue(l));
        EmitExtended1(OP_CONST, OP_CONST_EXTENDED, index);
    }

    /** jml_expression. */
    method Expression()
      requires Ready()
      modifies `pos, `code, `constants, `wError
      ensures Compiled(ParseExpr(tokens, old(pos)), old(code), old(constants))
      decreases |tokens| - pos, 3
    {
      PrecedenceParse(PREC_ASSIGNMENT);
    }

    /** jml_parser_precedence_parse. */
    method PrecedenceParse(prec: nat)
      requires Ready() && prec >= PREC_ASSIGNMENT
      modifies `pos, `code, `constants, `wError
      ensures Compiled(ParsePrec(tokens, old(pos), prec), old(code), old(constants))
      decreases |tokens| - pos, 2
    {
      ghost var base := |constants|;
      if pos >= |tokens| {
        Error();
        return;
      }
      Advance();
      Prefix(prec <= PREC_ASSIGNMENT);
      ghost var left := ParsePrefix(tokens, old(pos), prec <= PREC_ASSIGNMENT);
      if wError {
        if left.GoodExpr? {
          InfixContains(tokens, left.next, prec, left.e, locals, base);
        }
        return;
      }
      Infixes(prec, left.e, old(code), old(constants));
      if !wError && prec <= PREC_ASSIGNMENT && IsAssignTok(Current()) {
        Error();
      }
    }

    /** The loop over infix operators; `left` is the tree compiled so far, behind `code0`. */
    method Infixes(prec: nat, ghost left: Expr, ghost code0: seq<Byte>, ghost consts0: seq<Value>)
      requires Ready() && prec >= PREC_ASSIGNMENT
      requires Compiled(GoodExpr(left, pos), code0, consts0)
      modifies `pos, `code, `constants, `wError
      ensures Compiled(ParseInfix(tokens, old(pos), prec, left), code0, consts0)
      decreases |tokens| - pos, 1
    {
      hide ParsePrec, ParsePrefix, ParseNamed, ParseInfix, GenE, EncodeAll, Encode, AllFit, OkE, ConstsE, SkipLines, Size, GoodE, InfixCode, InfixTree;
      ghost var e := left;
      while prec <= Prec(Current())
        invariant Ready() && old(pos) <= pos
        invariant Compiled(GoodExpr(e, pos), code0, consts0)
        invariant ParseInfix(tokens, pos, prec, e) == ParseInfix(tokens, old(pos), prec, left)
        decreases |tokens| - pos
      {
        var t := Current();
        InfixUnfold(tokens, pos, prec, e);
        ghost var lost := SkipLines(tokens, pos + 1) != pos + 1;
        ghost var right := ParsePrec(tokens, SkipLines(tokens, pos + 1), InfixPrec(t, lost));
        if !HasInfix(t) {
          Error();
          return;
        }
        Advance();
        Infix(t);
        if right.GoodExpr? {
          GoodInfix(t, lost, e, right.e, locals, |consts0|);
          InfixTreeCode(t, lost, e, right.e, locals, |consts0|);
        }
        if wError {
          if right.GoodExpr? {
            InfixContains(tokens, right.next, prec, InfixTree(t, lost, e, right.e), locals, |consts0|);
          }
          return;
        }
        EncodeAllAppend(GenE(e, locals, |consts0|),
                        InfixCode(t, lost, GenE(right.e, locals, |consts0| + |ConstsE(e, locals)|)));
        e := InfixTree(t, lost, e, right.e);
      }
      InfixEnds(tokens, pos, prec, e);
    }

    /** The prefix rule of the token just consumed. */
    method Prefix(assignable: bool)
      requires Ready() && 0 < pos
      modifies `pos, `code, `constants, `wError
      ensures Compiled(ParsePrefix(tokens, old(pos) - 1, assignable), old(code), old(constants))
      decreases |tokens| - pos + 1, 1
    {
      match tokens[pos - 1]
      case LitTok(l) =>
        EmitLiteral(l);
        EncodeOne(GenLiteral(l, |old(constants)|));
      case NameTok(x) => Named(x, assignable);
      case LParen => Grouping();
      case NotTok => Unary(OP_NOT);
      case BinTok(op) =>
        if op == Sub {
          Unary(OP_NEG);
        } else {
          Error();
        }
      case _ => Error();
    }

    /** jml_grouping. */
    method Grouping()
      requires Ready() && 0 < pos && tokens[pos - 1] == LParen
      modifies `pos, `code, `constants, `wError
      ensures Compiled(ParsePrefix(tokens, old(pos) - 1, false), old(code), old(constants))
      ensures Compiled(ParsePrefix(tokens, old(pos) - 1, true), old(code), old(constants))
      decreases |tokens| - pos + 1, 0
    {
      MatchLine();
      Expression();
      if wError {
        return;
      }
      MatchLine();
      if Current() == RParen {
        Advance();
      } else {
        Error();
      }
    }

    /** jml_unary. */
    method Unary(op: Byte)
      requires Ready() && 0 < pos
      requires (op == OP_NOT && tokens[pos - 1] == NotTok) || (op == OP_NEG && tokens[pos - 1] == BinTok(Sub))
      modifies `pos, `code, `constants, `wError
      ensures Compiled(ParsePrefix(tokens, old(pos) - 1, false), old(code), old(constants))
      ensures Compiled(ParsePrefix(tokens, old(pos) - 1, true), old(code), old(constants))
      decreases |tokens| - pos + 1, 0
    {
      hide ParsePrec, ParsePrefix, ParseInfix, ParseNamed, EncodeAll, AllFit, SkipLines, Size;
      UnaryUnfold(tokens, pos - 1);
      PrecedenceParse(PREC_UNARY);
      ghost var r := ParsePrec(tokens, old(pos), PREC_UNARY);
      if r.GoodExpr? {
        AppendOne(GenE(r.e, locals, |old(constants)|), if op == OP_NOT then Not else Neg);
      }
      if wError {
        return;
      }
      EmitByte(op);
    }

    /** jml_variable_named, the name having been consumed. */
    method Named(x: string, assignable: bool)
      requires Ready() && 0 < pos
      modifies `pos, `code, `constants, `wError
      ensures Compiled(ParseNamed(tokens, old(pos), x, assignable), old(code), old(constants))
      decreases |tokens| - pos + 1, 0
    {
      hide ParsePrec, ParsePrefix, ParseNamed, ParseInfix, GenE, OkE, ConstsE, GoodE, EncodeAll, Encode, AllFit, SkipLines, Size;
      NamedNeeds(tokens, pos, x, assignable, locals, |constants|);
      var slot := ResolveLocal(x);
      if wError {
        return;
      }
      var global, arg := slot == -1, 0;
      if global {
        arg := MakeConst(StrV(x));
        if wError {
          return;
        }
      } else {
        arg := slot;
      }
      assert constants == old(constants) + NameConst(x, locals);
      UseName(x, assignable, global, arg, old(constants));
    }

    /** The rest of jml_variable_named: the variable, found at `arg`, is assigned or read. */
    method UseName(x: string, assignable: bool, global: bool, arg: nat, ghost consts0: seq<Value>)
      requires Ready() && 0 < pos && (!global ==> arg <= 255)
      requires OkName(x, locals) && constants == consts0 + NameConst(x, locals)
      requires Fits(SetVar(x, locals, |consts0|)) && Fits(GetVar(x, locals, |consts0|))
      requires SetVar(x, locals, |consts0|) == if global then SetGlobal(0, arg) else SetLocal(arg)
      requires GetVar(x, locals, |consts0|) == if global then GetGlobal(0, arg) else GetLocal(arg)
      modifies `pos, `code, `constants, `wError
      ensures Compiled(ParseNamed(tokens, old(pos), x, assignable), old(code), consts0)
      decreases |tokens| - pos, 5
    {
      hide ParsePrec, ParsePrefix, ParseNamed, ParseInfix, GenE, OkE, ConstsE, GoodE, EncodeAll, Encode, AllFit, SkipLines, Size, GetVar, SetVar, NameConst, OkName, Fits;
      NamedUnfold(tokens, pos, x, assignable);
      VarCode(x, locals, |consts0|);
      if Current() == LSquare || Current() == Arrow {
        Error();
      } else if assignable && Current() == EqualTok {
        Advance();
        AssignValue(x, global, arg, consts0);
      } else if assignable && Current().UpdateTok? {
        var op := Current().op;
        Advance();
        UpdateValue(x, op, global, arg, consts0);
      } else {
        EmitGet(global, arg);
      }
    }

    /** `= value`, the sign having been consumed. */
    method AssignValue(x: string, global: bool, arg: nat, ghost consts0: seq<Value>)
      requires Ready() && 0 < pos && (!global ==> arg <= 255)
      requires OkName(x, locals) && constants == consts0 + NameConst(x, locals)
      requires Fits(SetVar(x, locals, |consts0|))
      requires SetVar(x, locals, |consts0|) == if global then SetGlobal(0, arg) else SetLocal(arg)
      modifies `pos, `code, `constants, `wError
      ensures Compiled(Assigning(ParseExpr(tokens, SkipLines(tokens, old(pos))), x, None), old(code), consts0)
      decreases |tokens| - pos + 1, 4
    {
      hide ParsePrec, ParsePrefix, ParseNamed, ParseInfix, EncodeAll, Encode, AllFit, SkipLines, Size, GetVar, SetVar, NameConst;
      MatchLine();
      ghost var r := ParseExpr(tokens, pos);
      Expression();
      if r.GoodExpr? {
        AppendOne(GenE(r.e, locals, |old(constants)|), SetVar(x, locals, |consts0|));
      }
      if wError {
        return;
      }
      EmitSet(global, arg);
    }

    /** `op= value`, the sign having been consumed. */
    method UpdateValue(x: string, op: BinOp, global: bool, arg: nat, ghost consts0: seq<Value>)
      requires Ready() && 0 < pos && (!global ==> arg <= 255)
      requires OkName(x, locals) && constants == consts0 + NameConst(x, locals)
      requires Fits(SetVar(x, locals, |consts0|)) && Fits(GetVar(x, locals, |consts0|))
      requires SetVar(x, locals, |consts0|) == if global then SetGlobal(0, arg) else SetLocal(arg)
      requires GetVar(x, locals, |consts0|) == if global then GetGlobal(0, arg) else GetLocal(arg)
      modifies `pos, `code, `constants, `wError
      ensures Compiled(Assigning(ParseExpr(tokens, SkipLines(tokens, old(pos))), x, Some(op)), old(code), consts0)
      decreases |tokens| - pos + 1, 4
    {
      hide ParsePrec, ParsePrefix, ParseNamed, ParseInfix, EncodeAll, Encode, AllFit, SkipLines, Size, GetVar, SetVar, NameConst;
      EmitGet(global, arg);
      MatchLine();
      ghost var r := ParseExpr(tokens, pos);
      Expression();
      if r.GoodExpr? {
        UpdateCode(GetVar(x, locals, |consts0|), GenE(r.e, locals, |old(constants)|), op, SetVar(x, locals, |consts0|));
      }
      if wError {
        return;
      }
      EmitByte(BinOpCode(op));
      EmitSet(global, arg);
    }

    /** The infix rule of the operator just consumed. */
    method Infix(t: Token)
      requires Ready() && 0 < pos && HasInfix(t) && tokens[pos - 1] == t
      modifies `pos, `code, `constants, `wError
      ensures CompiledInfix(t, old(pos), old(code), old(constants))
      decreases |tokens| - pos + 1, 0
    {
      match t
      case AndTok => AndRule();
      case OrTok => OrRule();
      case BinTok(op) => BinaryRule(op);
    }

    /** The operator `t` has been compiled with the right operand that starts at `from`, or rejected. */
    predicate CompiledInfix(t: Token, from: nat, code0: seq<Byte>, consts0: seq<Value>)
      requires HasInfix(t)
      reads this
    {
      var after := SkipLines(tokens, from);
      var lost := after != from;
      var r := ParsePrec(tokens, after, InfixPrec(t, lost));
      && (!wError <==> r.GoodExpr? && OkE(r.e, locals) && AllFit(InfixCode(t, lost, GenE(r.e, locals, |consts0|))))
      && (!wError ==>
            && pos == r.next
            && code == code0 + EncodeAll(InfixCode(t, lost, GenE(r.e, locals, |consts0|)))
            && constants == consts0 + ConstsE(r.e, locals))
    }

    /** jml_and. */
    method AndRule()
      requires Ready() && 0 < pos && tokens[pos - 1] == AndTok
      modifies `pos, `code, `constants, `wError
      ensures CompiledInfix(AndTok, old(pos), old(code), old(constants))
      decreases |tokens| - pos, 3
    {
      hide ParsePrec, ParsePrefix, ParseNamed, ParseInfix, GenE, EncodeAll, Encode, AllFit, OkE, ConstsE, SkipLines, Size, InfixCode;
      MatchLine();
      ghost var r := ParsePrec(tokens, pos, PREC_AND);
      ghost var right := if r.GoodExpr? then GenE(r.e, locals, |constants|) else [];
      AndBytes(old(code), right);
      var jumpEnd := EmitJump(OP_JUMP_IF_FALSE);
      EmitByte(OP_POP);
      ghost var head := code;
      PrecedenceParse(PREC_AND);
      if wError {
        return;
      }
      assert code == head + EncodeAll(right);
      PatchJump(jumpEnd);
      EmitByte(OP_BOOL);
    }

    /** jml_or. */
    method OrRule()
      requires Ready() && 0 < pos && tokens[pos - 1] == OrTok
      modifies `pos, `code, `constants, `wError
      ensures CompiledInfix(OrTok, old(pos), old(code), old(constants))
      decreases |tokens| - pos, 3
    {
      hide ParsePrec, ParsePrefix, ParseNamed, ParseInfix, GenE, EncodeAll, Encode, AllFit, OkE, ConstsE, SkipLines, Size, InfixCode, Hi, Lo;
      MatchLine();
      ghost var r := ParsePrec(tokens, pos, PREC_OR);
      ghost var right := if r.GoodExpr? then GenE(r.e, locals, |constants|) else [];
      OrBytes(old(code), right);
      var jumpElse := EmitJump(OP_JUMP_IF_FALSE);
      var jumpEnd := EmitJump(OP_JUMP);
      ghost var jumps := old(code) + [OP_JUMP_IF_FALSE, 255, 255] + [OP_JUMP, 255, 255];
      assert code == jumps && |code| - jumpElse - 2 == 3;
      PatchJump(jumpElse);
      EmitByte(OP_POP);
      ghost var head := code;
      PrecedenceParse(PREC_OR);
      if wError {
        return;
      }
      assert code == head + EncodeAll(right);
      PatchJump(jumpEnd);
      EmitByte(OP_BOOL);
    }

    /** jml_binary: newlines are skipped before the operator is looked at again. */
    method BinaryRule(op: BinOp)
      requires Ready() && 0 < pos && tokens[pos - 1] == BinTok(op)
      modifies `pos, `code, `constants, `wError
      ensures CompiledInfix(BinTok(op), old(pos), old(code), old(constants))
      decreases |tokens| - pos, 3
    {
      hide ParsePrec, ParsePrefix, ParseNamed, ParseInfix, GenE, EncodeAll, Encode, AllFit, OkE, ConstsE, SkipLines, Size;
      SkippedIsLine(tokens, pos);
      MatchLine();
      var previous := tokens[pos - 1];
      ghost var lost := pos != old(pos);
      ghost var r := ParsePrec(tokens, pos, InfixPrec(BinTok(op), lost));
      PrecedenceParse(Prec(previous) + 1);
      if r.GoodExpr? {
        AppendOne(GenE(r.e, locals, |old(constants)|), Binary(op));
        FitBinary(op);
      }
      if wError {
        return;
      }
      if previous.BinTok? {
        EmitByte(BinOpCode(previous.op));
      }
    }

    /**
      jml_loop_end: walks over the code of the loop body, instruction by instruction, and turns
      the placeholders into jumps to the end of the code. `before` is the code up to the body.
     */
    method LoopEnd(ghost before: seq<Byte>, ghost chunks: seq<seq<Byte>>)
      requires loop.Some? && loop.value.body == |before|
      requires AllChunks(chunks) && code == before + Flat(chunks)
      modifies `code, `wError, `loop
      ensures code == before + Flat(FillAll(chunks, |Flat(chunks)|))
      ensures wError == (old(wError) || !HolesFit(chunks, |Flat(chunks)|))
      ensures loop == old(loop).value.enclosing
    {
      hide InstructionOffset, Walkable, Hi, Lo, FillAll, Filled, Flat, HolesFit;
      var i, count := loop.value.body, |code|;
      ghost var done, todo := before, chunks;
      while i < count
        invariant |done| == i <= count == |code| && AllChunks(todo)
        invariant code == done + Flat(todo)
        invariant done + Flat(FillAll(todo, count - i)) == before + Flat(FillAll(chunks, |Flat(chunks)|))
        invariant loop == old(loop)
        invariant (wError || !HolesFit(todo, count - i)) <==> (old(wError) || !HolesFit(chunks, |Flat(chunks)|))
      {
        FlatNone();
        WalkStep(done, todo, count - i);
        ghost var rest := Flat(todo[1..]);
        ghost var filled := Filled(todo[0], count - i);
        if code[i] == PLACEHOLDER {
          FillBytes(done, todo[0], rest, count - i);
          code := code[i := OP_JUMP];
          PatchJump(i + 1);
          i := i + 3;
        } else {
          i := i + InstructionOffset(code[i]);
        }
        done, todo := done + filled, todo[1..];
      }
      FlatNone();
      FlatSome(todo);
      loop := loop.value.enclosing;
    }

    /** A statement can be compiled here. */
    predicate ReadyS()
      reads this
    {
      && Ready()
      && (loop.Some? ==> loop.value.start <= |code|)
      && (forall i :: 0 <= i < |locals| ==> locals[i].depth <= scopeDepth)
    }

    /** The statement read as `r` has been compiled behind `code0`, or rejected. */
    predicate CompiledS(r: ParsedStmt, code0: seq<Byte>, consts0: seq<Value>, locals0: Scope,
                        depth0: nat, loop0: Option<LoopInfo>)
      reads this
    {
      var back := Back(loop0, |code0|);
      && (!wError <==> r.GoodStmt? && GoodS(r.s, locals0, depth0, |consts0|, back))
      && (!wError ==>
            && pos == r.next
            && code == code0 + EncodeAll(Gen(r.s, locals0, depth0, |consts0|, back))
            && constants == consts0 + Consts(r.s, locals0, depth0)
            && locals == After(r.s, locals0, depth0) && |locals| <= LOCAL_MAX
            && scopeDepth == depth0 && loop == loop0)
    }

    /** jml_parser_newline. */
    method NewlineRule()
      requires Ready()
      modifies `pos, `wError
      ensures match Newline(tokens, old(pos)) case NoPosition => wError case At(n) => !wError && pos == n
    {
      if Current() == RBrace {
        return;
      }
      if Current() != Semi && Current() != Line {
        Error();
        return;
      }
      Advance();
      MatchLine();
    }

    method Consume(t: Token)
      requires Ready() && t != Eof
      modifies `pos, `wError
      ensures wError <==> TokenAt(tokens, old(pos)) != t
      ensures !wError ==> pos == old(pos) + 1 <= |tokens|
    {
      if Current() == t {
        Advance();
      } else {
        Error();
      }
    }

    method ExpressionStatement()
      requires ReadyS() && pos < |tokens|
      requires Current() !in {WhileTok, BreakTok, SkipTok, IfTok, LBrace}
      modifies `pos, `code, `constants, `wError
      ensures CompiledS(ParseStatement(tokens, old(pos)), old(code), old(constants), locals, scopeDepth, loop)
    {
      hide ParsePrec, ParsePrefix, ParseNamed, ParseInfix, GenE, EncodeAll, Encode, AllFit, OkE, ConstsE, SkipLines, Size, Newline;
      ghost var r := ParseExpr(tokens, pos);
      Expression();
      if r.GoodExpr? {
        AppendOne(GenE(r.e, locals, |old(constants)|), Pop);
        FitPop();
      }
      if wError {
        return;
      }
      NewlineRule();
      EmitByte(OP_POP);
    }

    /** jml_break_statement. */
    method BreakStatement()
      requires ReadyS() && 0 < pos
      modifies `code, `wError
      ensures CompiledS(GoodStmt(BreakS, old(pos)), old(code), old(constants), locals, scopeDepth, loop)
    {
      EncodeOne(BreakHole);
      FitOne(BreakHole);
      if loop == None {
        Error();
        return;
      }
      var _ := EmitJump(PLACEHOLDER);
    }

    /** jml_skip_statement. */
    method SkipStatement()
      requires ReadyS() && 0 < pos
      modifies `code, `wError
      ensures CompiledS(GoodStmt(SkipS, old(pos)), old(code), old(constants), locals, scopeDepth, loop)
    {
      if loop == None {
        Error();
        return;
      }
      ghost var back := Loop(|code| - loop.value.start + 3);
      EncodeOne(back);
      FitOne(back);
      EmitLoop(loop.value.start);
    }

    /** jml_let_declaration, `let` having been consumed. */
    method LetDeclaration()
      requires ReadyS() && 0 < pos
      modifies `pos, `code, `constants, `locals, `wError
      ensures CompiledS(ParseLet(tokens, old(pos)), old(code), old(constants), old(locals), scopeDepth, loop)
    {
      if !Current().NameTok? {
        Error();
        return;
      }
      var x := Current().name;
      Advance();
      if scopeDepth > 0 {
        LetLocal(x);
      } else {
        LetGlobal(x);
      }
    }

    /** The initializer of a declaration, or none, and the newline behind it. */
    method Initializer()
      requires Ready() && 0 < pos
      modifies `pos, `code, `constants, `wError
      ensures Compiled(ParseInit(tokens, old(pos)), old(code), old(constants))
    {
      hide ParsePrec, ParsePrefix, ParseNamed, ParseInfix, EncodeAll, Encode, AllFit, SkipLines, Size, Newline;
      if Current() == EqualTok {
        Advance();
        Expression();
        if wError {
          return;
        }
      } else {
        NoneCode(locals, |constants|);
        EmitByte(OP_NONE);
      }
      NewlineRule();
    }

    method LetLocal(x: string)
      requires ReadyS() && 0 < pos && scopeDepth > 0
      modifies `pos, `code, `constants, `locals, `wError
      ensures CompiledS(Declaring(ParseInit(tokens, old(pos)), x), old(code), old(constants), old(locals), scopeDepth, loop)
    {
      hide ParseInit, GenE, EncodeAll, Encode, AllFit, OkE, ConstsE, Size;
      var redeclared := IsRedeclared(x);
      if redeclared {
        Error();
        return;
      }
      if |locals| == LOCAL_MAX {
        Error();
        return;
      }
      locals := locals + [Local(x, -1)];
      Initializer();
      locals := locals[|locals| - 1 := Local(x, scopeDepth)];
      assert locals == old(locals) + [Local(x, scopeDepth)];
    }

    method LetGlobal(x: string)
      requires ReadyS() && 0 < pos && scopeDepth == 0
      modifies `pos, `code, `constants, `wError
      ensures CompiledS(Declaring(ParseInit(tokens, old(pos)), x), old(code), old(constants), locals, scopeDepth, loop)
    {
      hide ParseInit, GenE, EncodeAll, AllFit, OkE, ConstsE, Size;
      var index := MakeConst(StrV(x));
      ghost var r := ParseInit(tokens, pos);
      ghost var def := DefGlobal(0, |old(constants)|);
      if r.GoodExpr? {
        AppendOne(GenE(r.e, locals, |constants|), def);
      }
      if wError {
        return;
      }
      Initializer();
      if wError {
        return;
      }
      EmitExtended2(OP_DEF_GLOBAL, OP_DEF_GLOBAL_EXTENDED, 0, index);
    }

    /** Whether a local of that name exists in the current scope. */
    method IsRedeclared(x: string) returns (r: bool)
      ensures r == Redeclared(locals, scopeDepth, x)
    {
      var i := |locals| - 1;
      assert locals[..|locals|] == locals;
      while i >= 0
        invariant -1 <= i < |locals|
        invariant Redeclared(locals[..i + 1], scopeDepth, x) == Redeclared(locals, scopeDepth, x)
      {
        assert locals[..i + 1][..i] == locals[..i];
        if locals[i].depth != -1 && locals[i].depth < scopeDepth {
          return false;
        }
        if locals[i].name == x {
          return true;
        }
        i := i - 1;
      }
      return false;
    }

    /** jml_scope_end: drops the locals of the innermost scope; `outer` are those that stay. */
    method ScopeEnd(ghost outer: Scope)
      requires scopeDepth > 0 && NewAt(outer, locals, scopeDepth)
      requires forall i :: 0 <= i < |outer| ==> outer[i].depth < scopeDepth
      modifies `code, `locals, `scopeDepth
      ensures locals == outer && scopeDepth == old(scopeDepth) - 1
      ensures code == old(code) + EncodeAll(Pops(|old(locals)| - |outer|))
    {
      hide EncodeAll, Encode;
      scopeDepth := scopeDepth - 1;
      ghost var n := 0;
      PopsEnd(0);
      while |locals| > 0 && locals[|locals| - 1].depth > scopeDepth
        invariant scopeDepth == old(scopeDepth) - 1
        invariant NewAt(outer, locals, scopeDepth + 1) && n == |old(locals)| - |locals|
        invariant code == old(code) + EncodeAll(Pops(n))
        decreases |locals|
      {
        PopsEnd(n);
        EmitByte(OP_POP);
        locals := locals[..|locals| - 1];
        n := n + 1;
      }
      assert locals == outer;
    }

    /** jml_declaration. */
    method Declaration()
      requires ReadyS()
      modifies `pos, `code, `constants, `locals, `scopeDepth, `loop, `wError
      ensures CompiledS(ParseDeclaration(tokens, old(pos)), old(code), old(constants), old(locals), old(scopeDepth), old(loop))
      decreases |tokens| - pos, 2
    {
      hide ParseStatement, ParseLet, SkipLines, EncodeAll, Encode, AllFit, Gen, Ok, After, Consts;
      MatchLine();
      if Current() == LetTok {
        Advance();
        LetDeclaration();
      } else {
        Statement();
      }
    }

    /** jml_statement. */
    method Statement()
      requires ReadyS()
      modifies `pos, `code, `constants, `locals, `scopeDepth, `loop, `wError
      ensures CompiledS(ParseStatement(tokens, old(pos)), old(code), old(constants), old(locals), old(scopeDepth), old(loop))
      decreases |tokens| - pos, 1
    {
      hide ParseExpr, ParseWhile, ParseIf, ParseBlock, Newline, SkipLines, EncodeAll, Encode, AllFit, Gen, Ok, After, Consts;
      if pos == |tokens| {
        Error();
        return;
      }
      match Current()
      case WhileTok =>
        Advance();
        WhileStatement();
      case BreakTok =>
        Advance();
        BreakStatement();
      case SkipTok =>
        Advance();
        SkipStatement();
      case IfTok =>
        Advance();
        IfStatement();
      case LBrace =>
        Advance();
        ScopedBlock();
      case _ =>
        ExpressionStatement();
    }

    /** jml_block, the opening brace having been consumed. */
    method Block()
      requires ReadyS()
      modifies `pos, `code, `constants, `locals, `scopeDepth, `loop, `wError
      ensures CompiledS(ParseBlock(tokens, old(pos)), old(code), old(constants), old(locals), old(scopeDepth), old(loop))
      decreases |tokens| - pos, 3
    {
      hide ParseDeclaration, ParseBlock, Chain, EncodeAll, Encode, AllFit, Gen, Ok, After, Consts, Back, GoodS, Size;
      ChainNone(Nop);
      ghost var items: seq<Stmt> := [];
      ghost var back := Back(loop, |code|);
      ChainedNone(ParseBlock(tokens, pos));
      NopGen(locals, scopeDepth, |constants|, back);
      NopOk(locals, scopeDepth, |constants|, back);
      while Current() != RBrace && Current() != Eof
        invariant ReadyS() && old(pos) <= pos
        invariant CompiledS(GoodStmt(Chain(items, Nop), pos), old(code), old(constants), old(locals), old(scopeDepth), old(loop))
        invariant ParseBlock(tokens, old(pos)) == Chained(items, ParseBlock(tokens, pos))
        decreases |tokens| - pos
      {
        ghost var r := ParseDeclaration(tokens, pos);
        BlockUnfold(tokens, pos, items);
        ghost var code1 := Gen(Chain(items, Nop), old(locals), old(scopeDepth), |old(constants)|, back);
        BackFurther(loop, |old(code)|, Size(code1));
        if r.GoodStmt? {
          ghost var tail := ParseBlock(tokens, r.next);
          ChainGood(items, r.s, if tail.GoodStmt? then tail.s else Nop, old(locals), old(scopeDepth), |old(constants)|, back);
          EncodeAllAppend(code1, Gen(r.s, locals, scopeDepth, |constants|, Back(loop, |code|)));
        }
        Declaration();
        if wError {
          return;
        }
        items := items + [r.s];
        DepthsKept(old(locals), Chain(items, Nop), old(scopeDepth));
      }
      BlockEnds(tokens, pos, items);
      if Current() == RBrace {
        Advance();
      } else {
        Error();
      }
    }

    /** A brace, then a block. */
    method Braced()
      requires ReadyS()
      modifies `pos, `code, `constants, `locals, `scopeDepth, `loop, `wError
      ensures CompiledS(ParseBraced(tokens, old(pos)), old(code), old(constants), old(locals), old(scopeDepth), old(loop))
      decreases |tokens| - pos, 4
    {
      hide ParseBlock, EncodeAll, Encode, AllFit, Gen, Ok, After, Consts, Back;
      Consume(LBrace);
      if wError {
        return;
      }
      Block();
    }

    /** A block with a scope of its own, the brace having been consumed. */
    method ScopedBlock()
      requires ReadyS() && 0 < pos && tokens[pos - 1] == LBrace
      modifies `pos, `code, `constants, `locals, `scopeDepth, `loop, `wError
      ensures CompiledS(ParseStatement(tokens, old(pos) - 1), old(code), old(constants), old(locals), old(scopeDepth), old(loop))
      decreases |tokens| - pos, 4
    {
      hide ParseBlock, Newline, EncodeAll, Encode, AllFit, Gen, Ok, After, Consts, Back, Size;
      ghost var r := ParseBlock(tokens, pos);
      ghost var outer, back := locals, Back(loop, |code|);
      if r.GoodStmt? {
        BlockCode(r.s, locals, scopeDepth, |constants|, back);
        AfterIsNew(r.s, locals, scopeDepth + 1);
        AfterExtends(r.s, locals, scopeDepth + 1);
      }
      scopeDepth := scopeDepth + 1;
      Block();
      if wError {
        return;
      }
      ScopeEnd(outer);
      NewlineRule();
    }

    /** jml_while_statement, `while` having been consumed. */
    method WhileStatement()
      requires ReadyS() && 0 < pos
      modifies `pos, `code, `constants, `locals, `scopeDepth, `loop, `wError
      ensures CompiledS(ParseWhile(tokens, old(pos)), old(code), old(constants), old(locals), old(scopeDepth), old(loop))
      decreases |tokens| - pos, 5
    {
      hide ParseExpr, ParseBraced, Newline, SkipLines, EncodeAll, Encode, AllFit, Gen, GenE, Ok, OkE, Consts, ConstsE,
        Size, Looped, LoopTail, Chunks, HolesFit, Fits, After, ParseWhile;
      WhileUnfold(tokens, pos);
      var start := |code|;
      MatchLine();
      ghost var c := ParseExpr(tokens, pos);
      ghost var b := if c.GoodExpr? then ParseBraced(tokens, SkipLines(tokens, c.next)) else BadStmt(false);
      ghost var cond := if c.GoodExpr? then GenE(c.e, locals, |constants|) else [];
      ghost var base1 := |constants| + if c.GoodExpr? then |ConstsE(c.e, locals)| else 0;
      ghost var body := if b.GoodStmt? then Gen(b.s, locals, scopeDepth, base1, Some(Size(cond) + 4)) else [];
      LoopFits(cond, body);
      if b.GoodStmt? {
        WhileCode(c.e, b.s, locals, scopeDepth, |constants|, Back(loop, |code|));
      }
      Expression();
      if wError {
        return;
      }
      MatchLine();
      var exit := EmitJump(OP_JUMP_IF_FALSE);
      loop := Some(LoopInfo(start, |code|, exit, loop));
      EmitByte(OP_POP);
      ghost var head := code;
      Braced();
      if wError {
        return;
      }
      NewlineRule();
      if wError {
        return;
      }
      assert code == head + EncodeAll(body);
      WhileEnd(start, exit, old(code), cond, body);
    }

    /** What follows the body of a loop: the way back, the exit and the breaks. */
    method WhileEnd(start: nat, exit: nat, ghost code0: seq<Byte>, ghost cond: seq<Instr>, ghost body: seq<Instr>)
      requires !wError && start == |code0| && exit == |code0| + Size(cond) + 1
      requires code == code0 + EncodeAll(cond) + [OP_JUMP_IF_FALSE, 255, 255] + [OP_POP] + EncodeAll(body)
      requires loop.Some? && loop.value.body == exit + 2 && AllChunks(Chunks(LoopTail(cond, body)))
      modifies `code, `wError, `loop
      ensures wError <==>
              !(Size(body) + 4 <= 65535 && Fits(Loop(Size(cond) + Size(body) + 7)) &&
                HolesFit(Chunks(LoopTail(cond, body)), Size(body) + 5))
      ensures !wError ==> code == code0 + EncodeAll(Looped(cond, body)) && loop == old(loop).value.enclosing
    {
      hide EncodeAll, Encode, Size, Looped, Chunks, FillAll, Flat, HolesFit, Hi, Lo;
      LoopBytes(code0, cond, body);
      EmitLoop(start);
      PatchJump(exit);
      EmitByte(OP_POP);
      if wError {
        return;
      }
      LoopEnd(LoopHead(code0, cond, body), Chunks(LoopTail(cond, body)));
    }

    /** jml_if_statement, `if` having been consumed. */
    method IfStatement()
      requires ReadyS() && 0 < pos
      modifies `pos, `code, `constants, `locals, `scopeDepth, `loop, `wError
      ensures CompiledS(ParseIf(tokens, old(pos)), old(code), old(constants), old(locals), old(scopeDepth), old(loop))
      decreases |tokens| - pos, 5
    {
      hide ParseExpr, ParseBraced, ParseElse, SkipLines, EncodeAll, Encode, AllFit, Gen, GenE, Ok, OkE, Consts, ConstsE,
        Size, Branches, After, ParseIf, Back, Fits, Declared, Len, Hi, Lo, ParsePrec, NameConst;
      IfUnfold(tokens, pos);
      ghost var c := ParseExpr(tokens, pos);
      ghost var y := if c.GoodExpr? then ParseBraced(tokens, SkipLines(tokens, c.next)) else BadStmt(c.away);
      ghost var n := if y.GoodStmt? then ParseElse(tokens, y.next) else BadStmt(y.away);
      ghost var ifs := IfS(if c.GoodExpr? then c.e else Lit(NoneLit), if y.GoodStmt? then y.s else Nop,
                           if n.GoodStmt? then n.s else Nop);
      ghost var back, base := Back(loop, |code|), |constants|;
      ghost var cond, yes, no := GenE(ifs.cond, locals, base), YesCode(ifs, locals, scopeDepth, base, back),
                                 NoCode(ifs, locals, scopeDepth, base, back);
      IfCode(ifs, locals, scopeDepth, base, back);
      IfFits(cond, yes, no);
      BackFurther(loop, |code|, Size(cond) + 4);
      BackFurther(loop, |code|, Size(cond) + 8 + Size(yes));
      Expression();
      if wError {
        return;
      }
      MatchLine();
      var thenJump := EmitJump(OP_JUMP_IF_FALSE);
      EmitByte(OP_POP);
      ghost var head := code;
      Braced();
      if wError {
        return;
      }
      assert code == head + EncodeAll(yes);
      DepthsKept(old(locals), ifs.yes, scopeDepth);
      IfRest(thenJump, old(code), cond, yes);
    }

    /** The end of the first branch and the other one; `code0` is the code in front of the condition. */
    method IfRest(thenJump: nat, ghost code0: seq<Byte>, ghost cond: seq<Instr>, ghost yes: seq<Instr>)
      requires ReadyS() && thenJump == |code0| + Size(cond) + 1 && (loop.Some? ==> loop.value.start <= |code0|)
      requires code == code0 + EncodeAll(cond) + [OP_JUMP_IF_FALSE, 255, 255] + [OP_POP] + EncodeAll(yes)
      modifies `pos, `code, `constants, `locals, `scopeDepth, `loop, `wError
      ensures CompiledElse(ParseElse(tokens, old(pos)), code0, cond, yes, old(constants), old(locals), old(scopeDepth), old(loop))
      decreases |tokens| - pos, 7
    {
      hide ParseElse, EncodeAll, Encode, AllFit, Gen, Ok, Consts, Size, Branches, After, Back, Hi, Lo;
      ghost var n := ParseElse(tokens, pos);
      ghost var back := Back(loop, |code0| + Size(cond) + 8 + Size(yes));
      ghost var no := if n.GoodStmt? then Gen(n.s, locals, scopeDepth, |constants|, back) else [];
      IfBytes(code0, cond, yes, no);
      var elseJump := EmitJump(OP_JUMP);
      PatchJump(thenJump);
      EmitByte(OP_POP);
      if wError {
        return;
      }
      ghost var head := code;
      ElsePart();
      if wError {
        return;
      }
      assert code == head + EncodeAll(no);
      PatchJump(elseJump);
    }

    /** The second branch read as `n` has been compiled, or rejected. */
    predicate CompiledElse(n: ParsedStmt, code0: seq<Byte>, cond: seq<Instr>, yes: seq<Instr>, consts0: seq<Value>,
                           locals0: Scope, depth0: nat, loop0: Option<LoopInfo>)
      reads this
    {
      var back := Back(loop0, |code0| + Size(cond) + 8 + Size(yes));
      var no := if n.GoodStmt? then Gen(n.s, locals0, depth0, |consts0|, back) else [];
      && (!wError <==> n.GoodStmt? && Ok(n.s, locals0, depth0, back.Some?) && AllFit(no) &&
                       Size(yes) + 4 <= 65535 && 1 + Size(no) <= 65535)
      && (!wError ==>
            && pos == n.next
            && code == code0 + EncodeAll(cond + Branches(yes, no))
            && constants == consts0 + Consts(n.s, locals0, depth0)
            && locals == After(n.s, locals0, depth0) && |locals| <= LOCAL_MAX
            && scopeDepth == depth0 && loop == loop0)
    }

    /** What may follow the first branch of an `if`. */
    method ElsePart()
      requires ReadyS()
      modifies `pos, `code, `constants, `locals, `scopeDepth, `loop, `wError
      ensures CompiledS(ParseElse(tokens, old(pos)), old(code), old(constants), old(locals), old(scopeDepth), old(loop))
      decreases |tokens| - pos, 6
    {
      hide ParseIf, ParseBraced, Newline, SkipLines, EncodeAll, Encode, AllFit, Gen, Ok, Consts, After, Back;
      if Current() == ElseTok {
        Advance();
        MatchLine();
        if Current() == IfTok {
          Advance();
          IfStatement();
        } else {
          Braced();
          if wError {
            return;
          }
          NewlineRule();
        }
      } else {
        NopGen(locals, scopeDepth, |constants|, Back(loop, |code|));
        NopOk(locals, scopeDepth, |constants|, Back(loop, |code|));
        NewlineRule();
      }
    }

    /** jml_compiler_compile: the whole source becomes the code of the main function. */
    method Compile()
      requires ReadyS() && pos == 0 && code == [] && constants == [NoneV]
      requires locals == MainScope && scopeDepth == 0 && loop == None
      modifies this
      ensures var r := ParseProgram(tokens);
              && (!wError <==> r.GoodStmt? && Ok(r.s, MainScope, 0, false) && AllFit(GenProgram(r.s)))
              && (!wError ==> code == EncodeAll(GenProgram(r.s)) && constants == ConstsProgram(r.s))
    {
      hide ParseDeclaration, ParseItems, Chain, EncodeAll, Encode, AllFit, Gen, Ok, After, Consts, GoodS, Size, GenProgram;
      ChainNone(Nop);
      ChainedNone(ParseProgram(tokens));
      MatchLine();
      ghost var items: seq<Stmt> := [];
      NopGen(locals, 0, 1, None);
      NopOk(locals, 0, 1, None);
      while Current() != Eof
        invariant ReadyS()
        invariant CompiledS(GoodStmt(Chain(items, Nop), pos), [], [NoneV], MainScope, 0, None)
        invariant ParseProgram(tokens) == Chained(items, ParseItems(tokens, pos))
        decreases |tokens| - pos
      {
        ghost var r := ParseDeclaration(tokens, pos);
        ItemsUnfold(tokens, pos, items);
        ghost var code1 := Gen(Chain(items, Nop), MainScope, 0, 1, None);
        if r.GoodStmt? {
          ghost var tail := ParseItems(tokens, r.next);
          ChainGood(items, r.s, if tail.GoodStmt? then tail.s else Nop, MainScope, 0, 1, None);
          EncodeAllAppend(code1, Gen(r.s, locals, 0, |constants|, None));
          ProgramFits(Chain(items + [r.s], if tail.GoodStmt? then tail.s else Nop));
        }
        Declaration();
        if wError {
          return;
        }
        items := items + [r.s];
        DepthsKept(MainScope, Chain(items, Nop), 0);
      }
      ItemsEnd(tokens, pos, items);
      ProgramFits(Chain(items, Nop));
      EmitByte(OP_NONE);
      EmitByte(OP_RETURN);
      EmitByte(OP_END);
    }
  }

  lemma FlatCons(a: seq<Byte>, b: seq<seq<Byte>>)
    ensures Flat([a] + b) == a + Flat(b)
  {
    assert ([a] + b)[1..] == b;
  }

  lemma FitPop()
    ensures Fits(Pop) && Encode(Pop) == [OP_POP]
  {
  }

  lemma NoneCode(sc: Scope, base: nat)
    ensures EncodeAll(GenE(Lit(NoneLit), sc, base)) == [OP_NONE]
    ensures ConstsE(Lit(NoneLit), sc) == [] && GoodE(Lit(NoneLit), sc, base)
  {
    EncodeOne(PushNone);
    FitOne(PushNone);
  }

  /** What follows the name of a declaration. */
  function ParseInit(ts: seq<Token>, pos: nat): ParsedExpr {
    if TokenAt(ts, pos) == EqualTok then
      match ParseExpr(ts, pos + 1)
      case BadExpr(away) => BadExpr(away)
      case GoodExpr(e, n) => (match Newline(ts, n) case NoPosition => BadExpr(false) case At(m) => GoodExpr(e, m))
    else
      match Newline(ts, pos) case NoPosition => BadExpr(false) case At(m) => GoodExpr(Lit(NoneLit), m)
  }

  function Declaring(r: ParsedExpr, x: string): ParsedStmt {
    match r
    case BadExpr(away) => BadStmt(away)
    case GoodExpr(e, n) => GoodStmt(LetS(x, e), n)
  }

  lemma {:induction false} PopsEnd(n: nat)
    ensures EncodeAll(Pops(n + 1)) == EncodeAll(Pops(n)) + [OP_POP]
    ensures Pops(0) == [] && EncodeAll([]) == []
  {
    if n > 0 {
      PopsEnd(n - 1);
      assert Pops(n + 1)[1..] == Pops(n) && Pops(n)[1..] == Pops(n - 1);
    } else {
      assert Pops(1)[1..] == Pops(0);
    }
  }

  lemma BackFurther(loop: Option<LoopInfo>, n: nat, m: nat)
    requires loop.Some? ==> loop.value.start <= n
    ensures Back(loop, n + m) == Further(Back(loop, n), m)
  {
  }

  lemma DepthsKept(sc: Scope, s: Stmt, depth: nat)
    requires forall i :: 0 <= i < |sc| ==> sc[i].depth <= depth
    ensures forall i :: 0 <= i < |After(s, sc, depth)| ==> After(s, sc, depth)[i].depth <= depth
  {
    AfterIsNew(s, sc, depth);
  }

  lemma BlockUnfold(ts: seq<Token>, pos: nat, items: seq<Stmt>)
    requires pos <= |ts| && TokenAt(ts, pos) != RBrace && TokenAt(ts, pos) != Eof
    ensures var r := ParseDeclaration(ts, pos);
      Chained(items, ParseBlock(ts, pos)) == if r.GoodStmt? then Chained(items + [r.s], ParseBlock(ts, r.next)) else r
  {
    hide ParseDeclaration;
    match ParseDeclaration(ts, pos)
    case BadStmt(_) =>
    case GoodStmt(first, n) =>
      match ParseBlock(ts, n)
      case BadStmt(_) =>
      case GoodStmt(rest, m) => ChainMore(items, first, rest);
  }

  /** One more statement behind those compiled so far. */
  lemma ChainGood(items: seq<Stmt>, first: Stmt, rest: Stmt, sc: Scope, depth: nat, base: nat, back: Option<nat>)
    ensures var front := Chain(items, Nop);
            var code, sc1, k := Gen(front, sc, depth, base, back), After(front, sc, depth), Consts(front, sc, depth);
            var base1, back1 := base + |k|, Further(back, Size(code));
            var more := Chain(items + [first], Nop);
            && (GoodS(Chain(items, Seq(first, rest)), sc, depth, base, back) ==> GoodS(first, sc1, depth, base1, back1))
            && (GoodS(Chain(items + [first], rest), sc, depth, base, back) ==> GoodS(first, sc1, depth, base1, back1))
            && (GoodS(more, sc, depth, base, back) <==>
                  GoodS(front, sc, depth, base, back) && GoodS(first, sc1, depth, base1, back1))
            && Gen(more, sc, depth, base, back) == code + Gen(first, sc1, depth, base1, back1)
            && After(more, sc, depth) == After(first, sc1, depth)
            && Consts(more, sc, depth) == k + Consts(first, sc1, depth)
  {
    hide AllFit, EncodeAll, Encode, Size, Gen, After, Consts, Chain;
    ChainMore(items, first, rest);
    ChainMore(items, first, Nop);
    ChainSplit(items, first, rest, sc, depth, base, back);
    ChainSplit(items, first, Nop, sc, depth, base, back);
    var front := Chain(items, Nop);
    var code, sc1, k := Gen(front, sc, depth, base, back), After(front, sc, depth), Consts(front, sc, depth);
    var base1, back1 := base + |k|, Further(back, Size(code));
    var one := Gen(first, sc1, depth, base1, back1);
    NopGen(After(first, sc1, depth), depth, base1 + |Consts(first, sc1, depth)|, Further(back1, Size(one)));
    FitNone();
    assert code + (one + []) == code + one;
  }

  lemma ChainSplit(items: seq<Stmt>, first: Stmt, rest: Stmt, sc: Scope, depth: nat, base: nat, back: Option<nat>)
    ensures var front := Chain(items, Nop);
            var code, sc1, k := Gen(front, sc, depth, base, back), After(front, sc, depth), Consts(front, sc, depth);
            var base1, back1 := base + |k|, Further(back, Size(code));
            var one, sc2 := Gen(first, sc1, depth, base1, back1), After(first, sc1, depth);
            var k2 := Consts(first, sc1, depth);
            var last := Gen(rest, sc2, depth, base1 + |k2|, Further(back1, Size(one)));
            var all := Chain(items, Seq(first, rest));
            && Gen(all, sc, depth, base, back) == code + (one + last)
            && (AllFit(code + (one + last)) <==> AllFit(code) && AllFit(one) && AllFit(last))
            && After(all, sc, depth) == After(rest, sc2, depth)
            && Consts(all, sc, depth) == k + (k2 + Consts(rest, sc2, depth))
            && (Ok(all, sc, depth, back.Some?) <==>
                  Ok(front, sc, depth, back.Some?) && Ok(first, sc1, depth, back.Some?) && Ok(rest, sc2, depth, back.Some?))
  {
    hide AllFit, EncodeAll, Encode, Size, Gen, After, Consts, Chain;
    var front := Chain(items, Nop);
    var code, sc1, k := Gen(front, sc, depth, base, back), After(front, sc, depth), Consts(front, sc, depth);
    var base1, back1 := base + |k|, Further(back, Size(code));
    var one, sc2 := Gen(first, sc1, depth, base1, back1), After(first, sc1, depth);
    var last := Gen(rest, sc2, depth, base1 + |Consts(first, sc1, depth)|, Further(back1, Size(one)));
    ChainScope(items, Seq(first, rest), sc, depth, back.Some?);
    ChainCode(items, Seq(first, rest), sc, depth, base, back);
    SeqGen(first, rest, sc1, depth, base1, back1);
    FitAppend(code, one + last);
    FitAppend(one, last);
  }

  lemma NopOk(sc: Scope, depth: nat, base: nat, back: Option<nat>)
    ensures GoodS(Nop, sc, depth, base, back) && EncodeAll(Gen(Nop, sc, depth, base, back)) == []
  {
  }

  /** Statements read so far, followed by what is still to be read. */
  function Chained(items: seq<Stmt>, r: ParsedStmt): ParsedStmt {
    match r
    case BadStmt(away) => BadStmt(away)
    case GoodStmt(s, n) => GoodStmt(Chain(items, s), n)
  }

  lemma BlockCode(b: Stmt, sc: Scope, depth: nat, base: nat, back: Option<nat>)
    ensures var n := Declared(b, depth + 1);
            && EncodeAll(Gen(BlockS(b), sc, depth, base, back)) ==
               EncodeAll(Gen(b, sc, depth + 1, base, back)) + EncodeAll(Pops(n))
            && (GoodS(BlockS(b), sc, depth, base, back) <==> GoodS(b, sc, depth + 1, base, back))
            && After(BlockS(b), sc, depth) == sc
            && Consts(BlockS(b), sc, depth) == Consts(b, sc, depth + 1)
  {
    hide GenE, ConstsE, Size, EncodeAll, AllFit, Patch, Looped, Pops, Branches, Declared, Further;
    var body, pops := Gen(b, sc, depth + 1, base, back), Pops(Declared(b, depth + 1));
    EncodeAllAppend(body, pops);
    FitAppend(body, pops);
    PopsFit(Declared(b, depth + 1));
  }

  lemma {:induction false} PopsFit(n: nat)
    ensures AllFit(Pops(n))
  {
    if n > 0 {
      PopsFit(n - 1);
      FitCons(Pops(n));
      assert Pops(n)[1..] == Pops(n - 1);
    }
  }

  /** The code in front of the loop body, its exit jump patched. */
  function LoopHead(code0: seq<Byte>, cond: seq<Instr>, body: seq<Instr>): seq<Byte> {
    code0 + EncodeAll(cond) + [OP_JUMP_IF_FALSE, Hi(Size(body) + 4), Lo(Size(body) + 4)]
  }

  /** What the walk over the loop body sees. */
  function LoopTail(cond: seq<Instr>, body: seq<Instr>): seq<Instr> {
    [Pop] + (body + [Loop(Size(cond) + Size(body) + 7), Pop])
  }

  /** The bytes of a loop, as they are emitted, patched and walked over. */
  lemma LoopBytes(code0: seq<Byte>, cond: seq<Instr>, body: seq<Instr>)
    ensures var back, tail := Loop(Size(cond) + Size(body) + 7), Chunks(LoopTail(cond, body));
            var at := |code0| + Size(cond) + 1;
            var j := Size(body) + 4;
            var raw := code0 + EncodeAll(cond) + [OP_JUMP_IF_FALSE, 255, 255] + [OP_POP] + EncodeAll(body) + Encode(back);
            && |raw| - at - 2 == j
            && raw[at := Hi(j)][at + 1 := Lo(j)] + [OP_POP] == LoopHead(code0, cond, body) + Flat(tail)
            && AllChunks(tail) && |Flat(tail)| == j + 1
            && LoopHead(code0, cond, body) + Flat(FillAll(tail, j + 1)) == code0 + EncodeAll(Looped(cond, body))
  {
    hide EncodeAll, Encode, Chunks, FillAll, Flat, Hi, Lo, Patch, Size, LoopHead, LoopTail, Looped;
    var ins, j := LoopTail(cond, body), Size(body) + 4;
    ChunksFlat(ins);
    TailBytes(cond, body);
    LoopPatched(code0, cond, body);
    FillIsPatch(ins, j + 1);
    ChunksFlat(Patch(ins, j + 1));
    LoopedBytes(code0, cond, body);
  }

  lemma LoopPatched(code0: seq<Byte>, cond: seq<Instr>, body: seq<Instr>)
    ensures var back := Encode(Loop(Size(cond) + Size(body) + 7));
            var at := |code0| + Size(cond) + 1;
            var j := Size(body) + 4;
            var raw := code0 + EncodeAll(cond) + [OP_JUMP_IF_FALSE, 255, 255] + [OP_POP] + EncodeAll(body) + back;
            && |raw| - at - 2 == j
            && raw[at := Hi(j)][at + 1 := Lo(j)] + [OP_POP] ==
               LoopHead(code0, cond, body) + ([OP_POP] + EncodeAll(body) + back + [OP_POP])
  {
    hide EncodeAll, Hi, Lo, Size;
    var back, j := Encode(Loop(Size(cond) + Size(body) + 7)), Size(body) + 4;
    var front, mid := code0 + EncodeAll(cond), [OP_POP] + EncodeAll(body) + back;
    Patched(front, OP_JUMP_IF_FALSE, mid, j);
    assert front + [OP_JUMP_IF_FALSE, 255, 255] + [OP_POP] + EncodeAll(body) + back ==
           front + [OP_JUMP_IF_FALSE, 255, 255] + mid;
  }

  lemma TailBytes(cond: seq<Instr>, body: seq<Instr>)
    ensures EncodeAll(LoopTail(cond, body)) ==
            [OP_POP] + EncodeAll(body) + Encode(Loop(Size(cond) + Size(body) + 7)) + [OP_POP]
    ensures Size(LoopTail(cond, body)) == Size(body) + 5
  {
    hide EncodeAll;
    var back := Loop(Size(cond) + Size(body) + 7);
    EncodeAllAppend([Pop], body + [back, Pop]);
    EncodeAllAppend(body, [back, Pop]);
    EncodeTwo(back, Pop);
    EncodeOne(Pop);
    JumpBytes(Pop);
  }

  /** Patching the walked code gives the code of the loop. */
  lemma LoopedBytes(code0: seq<Byte>, cond: seq<Instr>, body: seq<Instr>)
    ensures LoopHead(code0, cond, body) + EncodeAll(Patch(LoopTail(cond, body), Size(body) + 5)) ==
            code0 + EncodeAll(Looped(cond, body))
  {
    hide EncodeAll, Encode, Patch, Hi, Lo;
    var inner, ends := Patch(body, Size(body) + 4), [Loop(Size(cond) + Size(body) + 7), Pop];
    PatchTail(cond, body);
    EncodeAllAppend([JumpIfFalse(Size(body) + 4)], [Pop] + (inner + ends));
    EncodeOne(JumpIfFalse(Size(body) + 4));
    JumpBytes(JumpIfFalse(Size(body) + 4));
    assert [JumpIfFalse(Size(body) + 4), Pop] + (inner + ends) ==
           [JumpIfFalse(Size(body) + 4)] + ([Pop] + (inner + ends));
    EncodeAllAppend(cond, [JumpIfFalse(Size(body) + 4), Pop] + (inner + ends));
  }

  lemma PatchTail(cond: seq<Instr>, body: seq<Instr>)
    ensures Patch(LoopTail(cond, body), Size(body) + 5) ==
            [Pop] + (Patch(body, Size(body) + 4) + [Loop(Size(cond) + Size(body) + 7), Pop])
  {
    hide EncodeAll, Encode, Patch, NoHoles;
    var ends := [Loop(Size(cond) + Size(body) + 7), Pop];
    PatchCons(Pop, body + ends, Size(body) + 5);
    PatchAppend(body, ends, Size(body) + 4);
    NoHolesEnds(Loop(Size(cond) + Size(body) + 7));
    PatchNothing(ends, 4);
  }

  lemma NoHolesEnds(i: Instr)
    requires i != BreakHole
    ensures NoHoles([i, Pop])
  {
  }

  /** Exactly when every operand of a loop fits. */
  lemma LoopFits(cond: seq<Instr>, body: seq<Instr>)
    ensures AllChunks(Chunks(LoopTail(cond, body)))
    ensures AllFit(Looped(cond, body)) <==>
            && AllFit(cond) && AllFit(body) && Size(body) + 4 <= 65535
            && Fits(Loop(Size(cond) + Size(body) + 7))
            && HolesFit(Chunks(LoopTail(cond, body)), Size(body) + 5)
  {
    hide EncodeAll, Encode, Patch, AllFit, Chunks, HolesFit;
    var inner, ends := Patch(body, Size(body) + 4), [Loop(Size(cond) + Size(body) + 7), Pop];
    var jump, tail := JumpIfFalse(Size(body) + 4), LoopTail(cond, body);
    ChunksFlat(tail);
    TailBytes(cond, body);
    PatchFits(tail, Size(body) + 5);
    PatchTail(cond, body);
    FitAppend([Pop], body + ends);
    FitAppend(body, ends);
    FitTwo(ends[0], Pop);
    FitOne(Pop);
    FitAppend([Pop], inner + ends);
    FitAppend(inner, ends);
    FitAppend([jump, Pop], inner + ends);
    FitTwo(jump, Pop);
    FitAppend(cond, [jump, Pop] + (inner + ends));
  }

  lemma WhileUnfold(ts: seq<Token>, pos: nat)
    requires pos <= |ts|
    ensures ParseWhile(ts, pos) ==
            match ParseExpr(ts, SkipLines(ts, pos))
            case BadExpr(away) => BadStmt(away)
            case GoodExpr(c, n) =>
              match ParseBraced(ts, SkipLines(ts, n))
              case BadStmt(away) => BadStmt(away)
              case GoodStmt(b, m) =>
                match Newline(ts, m) case NoPosition => BadStmt(false) case At(k) => GoodStmt(WhileS(c, b), k)
  {
  }

  lemma WhileCode(c: Expr, b: Stmt, sc: Scope, depth: nat, base: nat, back: Option<nat>)
    ensures var cond := GenE(c, sc, base);
            var body := Gen(b, sc, depth, base + |ConstsE(c, sc)|, Some(Size(cond) + 4));
            && Gen(WhileS(c, b), sc, depth, base, back) == Looped(cond, body)
            && (GoodS(WhileS(c, b), sc, depth, base, back) <==>
                  OkE(c, sc) && Ok(b, sc, depth, true) && AllFit(Looped(cond, body)))
            && Consts(WhileS(c, b), sc, depth) == ConstsE(c, sc) + Consts(b, sc, depth)
            && After(WhileS(c, b), sc, depth) == After(b, sc, depth)
  {
    hide Looped, Size, EncodeAll, Encode, Len, GenE, ConstsE, OkE, AllFit;
  }

  lemma ProgramFits(s: Stmt)
    ensures var code := Gen(s, MainScope, 0, 1, None);
            && (AllFit(GenProgram(s)) <==> AllFit(code))
            && EncodeAll(GenProgram(s)) == EncodeAll(code) + [OP_NONE, OP_RETURN, OP_END]
            && (GoodS(s, MainScope, 0, 1, None) <==> Ok(s, MainScope, 0, false) && AllFit(code))
  {
    hide Gen, Ok, AllFit, EncodeAll;
    var code := Gen(s, MainScope, 0, 1, None);
    FitAppend(code, [PushNone, Return, End]);
    FitTwo(PushNone, Return);
    AppendOne([PushNone, Return], End);
    EncodeTwo(PushNone, Return);
    assert [PushNone, Return] + [End] == [PushNone, Return, End];
    EncodeAllAppend(code, [PushNone, Return, End]);
  }

  lemma ChainNone(s: Stmt)
    ensures Chain([], s) == s
  {
  }

  lemma ChainedNone(r: ParsedStmt)
    ensures Chained([], r) == r
  {
  }

  lemma BlockEnds(ts: seq<Token>, pos: nat, items: seq<Stmt>)
    requires TokenAt(ts, pos) == RBrace || TokenAt(ts, pos) == Eof
    requires pos <= |ts|
    ensures Chained(items, ParseBlock(ts, pos)) ==
            if TokenAt(ts, pos) == RBrace then GoodStmt(Chain(items, Nop), pos + 1) else BadStmt(false)
  {
  }

  lemma ItemsEnd(ts: seq<Token>, pos: nat, items: seq<Stmt>)
    requires TokenAt(ts, pos) == Eof && pos <= |ts|
    ensures Chained(items, ParseItems(ts, pos)) == GoodStmt(Chain(items, Nop), pos)
  {
  }

  lemma ItemsUnfold(ts: seq<Token>, pos: nat, items: seq<Stmt>)
    requires pos <= |ts| && TokenAt(ts, pos) != Eof
    ensures var r := ParseDeclaration(ts, pos);
      Chained(items, ParseItems(ts, pos)) == if r.GoodStmt? then Chained(items + [r.s], ParseItems(ts, r.next)) else r
  {
    hide ParseDeclaration;
    match ParseDeclaration(ts, pos)
    case BadStmt(_) =>
    case GoodStmt(first, n) =>
      match ParseItems(ts, n)
      case BadStmt(_) =>
      case GoodStmt(rest, m) => ChainMore(items, first, rest);
  }

  lemma IfUnfold(ts: seq<Token>, pos: nat)
    requires pos <= |ts|
    ensures var c := ParseExpr(ts, pos);
            var y := if c.GoodExpr? then ParseBraced(ts, SkipLines(ts, c.next)) else BadStmt(c.away);
            var n := if y.GoodStmt? then ParseElse(ts, y.next) else BadStmt(y.away);
            ParseIf(ts, pos) == if n.GoodStmt? then GoodStmt(IfS(c.e, y.s, n.s), n.next) else n
  {
    hide ParseExpr, ParseBraced, ParseElse, SkipLines;
  }

  function YesCode(s: Stmt, sc: Scope, depth: nat, base: nat, back: Option<nat>): seq<Instr>
    requires s.IfS?
  {
    Gen(s.yes, sc, depth, base + |ConstsE(s.cond, sc)|, Further(back, Size(GenE(s.cond, sc, base)) + 4))
  }

  function NoCode(s: Stmt, sc: Scope, depth: nat, base: nat, back: Option<nat>): seq<Instr>
    requires s.IfS?
  {
    Gen(s.no, After(s.yes, sc, depth), depth, base + |ConstsE(s.cond, sc)| + |Consts(s.yes, sc, depth)|,
        Further(back, Size(GenE(s.cond, sc, base)) + 8 + Size(YesCode(s, sc, depth, base, back))))
  }

  lemma IfCode(s: Stmt, sc: Scope, depth: nat, base: nat, back: Option<nat>)
    requires s.IfS?
    ensures var cond, yes, no := GenE(s.cond, sc, base), YesCode(s, sc, depth, base, back), NoCode(s, sc, depth, base, back);
            && Gen(s, sc, depth, base, back) == cond + Branches(yes, no)
            && (GoodS(s, sc, depth, base, back) <==>
                  && OkE(s.cond, sc) && Ok(s.yes, sc, depth, back.Some?)
                  && Ok(s.no, After(s.yes, sc, depth), depth, back.Some?) && AllFit(cond + Branches(yes, no)))
            && Consts(s, sc, depth) ==
               ConstsE(s.cond, sc) + Consts(s.yes, sc, depth) + Consts(s.no, After(s.yes, sc, depth), depth)
            && After(s, sc, depth) == After(s.no, After(s.yes, sc, depth), depth)
  {
    hide Branches, EncodeAll, Encode, Len, GenE, ConstsE, OkE, AllFit, Size;
  }

  lemma IfFits(cond: seq<Instr>, yes: seq<Instr>, no: seq<Instr>)
    ensures AllFit(cond + Branches(yes, no)) <==>
            AllFit(cond) && AllFit(yes) && AllFit(no) && Size(yes) + 4 <= 65535 && 1 + Size(no) <= 65535
  {
    hide AllFit, EncodeAll, Encode, Size;
    var tests, skips := [JumpIfFalse(Size(yes) + 4), Pop], [Jump(1 + Size(no)), Pop];
    FitTwo(tests[0], Pop);
    FitTwo(skips[0], Pop);
    FitAppend(skips, no);
    FitAppend(yes, skips + no);
    FitAppend(tests, yes + (skips + no));
    FitAppend(cond, tests + (yes + (skips + no)));
  }

  /** The bytes of a conditional, as they are emitted and patched. */
  lemma IfBytes(code0: seq<Byte>, cond: seq<Instr>, yes: seq<Instr>, no: seq<Instr>)
    ensures var at1 := |code0| + Size(cond) + 1;
            var at2 := at1 + 4 + Size(yes);
            var raw1 := code0 + EncodeAll(cond) + [OP_JUMP_IF_FALSE, 255, 255] + [OP_POP] + EncodeAll(yes) + [OP_JUMP, 255, 255];
            var j1, j2 := Size(yes) + 4, 1 + Size(no);
            var raw2 := raw1[at1 := Hi(j1)][at1 + 1 := Lo(j1)] + [OP_POP] + EncodeAll(no);
            && |raw1| - at1 - 2 == j1 && |raw2| - at2 - 2 == j2
            && raw2[at2 := Hi(j2)][at2 + 1 := Lo(j2)] == code0 + EncodeAll(cond + Branches(yes, no))
  {
    hide EncodeAll, Encode, Size, Hi, Lo, Branches;
    var j1, j2 := Size(yes) + 4, 1 + Size(no);
    var front := code0 + EncodeAll(cond);
    ThenPatched(front, EncodeAll(yes), j1);
    var front2 := front + [OP_JUMP_IF_FALSE, Hi(j1), Lo(j1)] + [OP_POP] + EncodeAll(yes);
    ElsePatched(front2, EncodeAll(no), j2);
    BranchBytes(code0, cond, yes, no);
  }

  lemma ThenPatched(front: seq<Byte>, yes: seq<Byte>, j: int)
    ensures (front + [OP_JUMP_IF_FALSE, 255, 255] + [OP_POP] + yes + [OP_JUMP, 255, 255])
              [|front| + 1 := Hi(j)][|front| + 2 := Lo(j)] ==
            front + [OP_JUMP_IF_FALSE, Hi(j), Lo(j)] + [OP_POP] + yes + [OP_JUMP, 255, 255]
  {
    hide Hi, Lo;
    var mid := [OP_POP] + yes + [OP_JUMP, 255, 255];
    Patched(front, OP_JUMP_IF_FALSE, mid, j);
    assert front + [OP_JUMP_IF_FALSE, 255, 255] + [OP_POP] + yes + [OP_JUMP, 255, 255] ==
           front + [OP_JUMP_IF_FALSE, 255, 255] + mid;
  }

  lemma ElsePatched(front: seq<Byte>, no: seq<Byte>, j: int)
    ensures (front + [OP_JUMP, 255, 255] + [OP_POP] + no)[|front| + 1 := Hi(j)][|front| + 2 := Lo(j)] ==
            front + [OP_JUMP, Hi(j), Lo(j)] + [OP_POP] + no
  {
    hide Hi, Lo;
    Patched(front, OP_JUMP, [OP_POP] + no, j);
    assert front + [OP_JUMP, 255, 255] + [OP_POP] + no == front + [OP_JUMP, 255, 255] + ([OP_POP] + no);
  }

  lemma BranchBytes(code0: seq<Byte>, cond: seq<Instr>, yes: seq<Instr>, no: seq<Instr>)
    ensures var j1, j2 := Size(yes) + 4, 1 + Size(no);
            code0 + EncodeAll(cond + Branches(yes, no)) ==
            code0 + EncodeAll(cond) + [OP_JUMP_IF_FALSE, Hi(j1), Lo(j1)] + [OP_POP] + EncodeAll(yes) +
            [OP_JUMP, Hi(j2), Lo(j2)] + [OP_POP] + EncodeAll(no)
  {
    hide EncodeAll, Encode, Size, Hi, Lo;
    var tests, skips := [JumpIfFalse(Size(yes) + 4), Pop], [Jump(1 + Size(no)), Pop];
    EncodeTwo(tests[0], Pop);
    EncodeTwo(skips[0], Pop);
    JumpBytes(tests[0]);
    JumpBytes(skips[0]);
    EncodeAllAppend(skips, no);
    EncodeAllAppend(yes, skips + no);
    EncodeAllAppend(tests, yes + (skips + no));
    EncodeAllAppend(cond, tests + (yes + (skips + no)));
  }

  lemma FlatNone()
    ensures Flat([]) == [] && FillAll([], 0) == [] && HolesFit([], 0)
  {
  }

  lemma FlatSome(chunks: seq<seq<Byte>>)
    requires AllChunks(chunks) && Flat(chunks) == []
    ensures chunks == []
  {
  }

  /** One step of the walk: the first chunk, its filling, and what remains. */
  lemma WalkStep(done: seq<Byte>, todo: seq<seq<Byte>>, dist: int)
    requires todo != [] && AllChunks(todo)
    ensures var rest, filled := Flat(todo[1..]), Filled(todo[0], dist);
            && done + Flat(todo) == done + todo[0] + rest
            && done + Flat(FillAll(todo, dist)) == done + filled + Flat(FillAll(todo[1..], dist - |todo[0]|))
            && (todo[0][0] != PLACEHOLDER ==> filled == todo[0])
    ensures HolesFit(todo, dist) <==>
            (todo[0][0] == PLACEHOLDER ==> dist - 3 <= 65535) && HolesFit(todo[1..], dist - |todo[0]|)
  {
    FlatCons(Filled(todo[0], dist), FillAll(todo[1..], dist - |todo[0]|));
  }

  lemma FillBytes(done: seq<Byte>, hole: seq<Byte>, rest: seq<Byte>, dist: int)
    requires IsChunk(hole) && hole[0] == PLACEHOLDER
    ensures (done + hole + rest)[|done| := OP_JUMP][|done| + 1 := Hi(dist - 3)][|done| + 2 := Lo(dist - 3)] ==
            done + Filled(hole, dist) + rest
  {
  }

  /** What follows the name and sign of an assignment. */
  function Assigning(r: ParsedExpr, x: string, op: Option<BinOp>): ParsedExpr {
    match r
    case BadExpr(away) => BadExpr(away)
    case GoodExpr(e, n) => GoodExpr(if op.Some? then Update(x, op.value, e) else Assign(x, e), n)
  }

  /** Whatever a name turns into, the name must be usable and its operand must fit. */
  lemma NamedNeeds(ts: seq<Token>, pos: nat, x: string, assignable: bool, sc: Scope, base: nat)
    requires 0 < pos <= |ts|
    ensures var r := ParseNamed(ts, pos, x, assignable);
            r.GoodExpr? && GoodE(r.e, sc, base) ==>
              OkName(x, sc) && Fits(GetVar(x, sc, base)) && Fits(SetVar(x, sc, base))
  {
    var r := ParseNamed(ts, pos, x, assignable);
    if r.GoodExpr? && GoodE(r.e, sc, base) {
      var ins := GenE(r.e, sc, base);
      assert Fits(ins[|ins| - 1]);
    }
  }

  lemma NamedUnfold(ts: seq<Token>, pos: nat, x: string, assignable: bool)
    requires 0 < pos <= |ts|
    ensures var t := TokenAt(ts, pos);
            ParseNamed(ts, pos, x, assignable) ==
            if t == LSquare || t == Arrow then BadExpr(true)
            else if assignable && t == EqualTok then Assigning(ParseExpr(ts, SkipLines(ts, pos + 1)), x, None)
            else if assignable && t.UpdateTok? then
              Assigning(ParseExpr(ts, SkipLines(ts, pos + 1)), x, Some(t.op))
            else GoodExpr(Var(x), pos)
  {
  }

  lemma VarCode(x: string, sc: Scope, base: nat)
    ensures EncodeAll(GenE(Var(x), sc, base)) == Encode(GetVar(x, sc, base))
    ensures ConstsE(Var(x), sc) == NameConst(x, sc)
    ensures GoodE(Var(x), sc, base) <==> OkName(x, sc) && Fits(GetVar(x, sc, base))
  {
    EncodeOne(GetVar(x, sc, base));
    FitOne(GetVar(x, sc, base));
  }

  lemma UpdateCode(get: Instr, value: seq<Instr>, op: BinOp, put: Instr)
    ensures EncodeAll([get] + value + [Binary(op)] + [put]) ==
            Encode(get) + EncodeAll(value) + [BinOpCode(op)] + Encode(put)
    ensures AllFit([get] + value + [Binary(op)] + [put]) <==> Fits(get) && AllFit(value) && Fits(put)
  {
    hide AllFit, Fits, EncodeAll;
    EncodeAllAppend([get], value);
    EncodeOne(get);
    FitAppend([get], value);
    FitOne(get);
    AppendOne([get] + value, Binary(op));
    AppendOne([get] + value + [Binary(op)], put);
    FitBinary(op);
  }

  /** What a unary operator adds to its operand. */
  lemma UnaryUnfold(ts: seq<Token>, at: nat)
    requires at < |ts| && (ts[at] == NotTok || ts[at] == BinTok(Sub))
    ensures forall assignable :: ParsePrefix(ts, at, assignable) == Unary(ts[at], ParsePrec(ts, at + 1, PREC_UNARY))
  {
  }

  function Unary(t: Token, r: ParsedExpr): ParsedExpr {
    match r
    case BadExpr(away) => BadExpr(away)
    case GoodExpr(e, n) => GoodExpr(if t == NotTok then NotE(e) else NegE(e), n)
  }

  lemma FitOne(i: Instr)
    ensures AllFit([i]) <==> Fits(i)
  {
    assert AllFit([i]) ==> Fits([i][0]);
  }

  lemma FitBinary(op: BinOp)
    ensures Fits(Binary(op)) && Encode(Binary(op)) == [BinOpCode(op)]
  {
  }

  /** The bytes `and` appends, as they are emitted and patched. */
  lemma AndBytes(code0: seq<Byte>, right: seq<Instr>)
    ensures var j := 1 + Size(right);
            var raw := code0 + [OP_JUMP_IF_FALSE, 255, 255] + [OP_POP] + EncodeAll(right);
            var code1 := raw[|code0| + 1 := Hi(j)][|code0| + 2 := Lo(j)] + [OP_BOOL];
            && |raw| - |code0| - 3 == j
            && (forall lost :: code1 == code0 + EncodeAll(InfixCode(AndTok, lost, right)))
            && (forall lost :: AllFit(InfixCode(AndTok, lost, right)) <==> AllFit(right) && j <= 65535)
  {
    hide AllFit, EncodeAll, Encode, Size, Hi, Lo;
    var jump, tail := JumpIfFalse(1 + Size(right)), [OP_POP] + EncodeAll(right);
    EncodeTwo(jump, Pop);
    EncodeAllAppend([jump, Pop], right);
    FitAppend([jump, Pop], right);
    FitTwo(jump, Pop);
    AppendOne([jump, Pop] + right, ToBool);
    JumpBytes(jump);
    Patched(code0, OP_JUMP_IF_FALSE, tail, 1 + Size(right));
    assert code0 + [OP_JUMP_IF_FALSE, 255, 255] + [OP_POP] + EncodeAll(right) ==
           code0 + [OP_JUMP_IF_FALSE, 255, 255] + tail;
  }

  lemma JumpBytes(i: Instr)
    ensures i.JumpIfFalse? ==> Encode(i) == [OP_JUMP_IF_FALSE, Hi(i.offset), Lo(i.offset)]
    ensures i.Jump? ==> Encode(i) == [OP_JUMP, Hi(i.offset), Lo(i.offset)]
    ensures Encode(Pop) == [OP_POP] && Encode(ToBool) == [OP_BOOL]
  {
  }

  lemma EncodeTwo(i: Instr, j: Instr)
    ensures EncodeAll([i, j]) == Encode(i) + Encode(j)
  {
    assert [i, j] == [i] + [j];
    EncodeAllAppend([i], [j]);
    EncodeOne(i);
    EncodeOne(j);
  }

  lemma FitTwo(i: Instr, j: Instr)
    ensures AllFit([i, j]) <==> Fits(i) && Fits(j)
  {
    assert AllFit([i, j]) ==> Fits([i, j][0]) && Fits([i, j][1]);
  }

  /** The bytes `or` appends, as they are emitted and patched. */
  lemma OrBytes(code0: seq<Byte>, right: seq<Instr>)
    ensures var j := 1 + Size(right);
            var jumps := code0 + [OP_JUMP_IF_FALSE, 255, 255] + [OP_JUMP, 255, 255];
            var raw := jumps[|code0| + 1 := Hi(3)][|code0| + 2 := Lo(3)] + [OP_POP] + EncodeAll(right);
            var code1 := raw[|code0| + 4 := Hi(j)][|code0| + 5 := Lo(j)] + [OP_BOOL];
            && |raw| - |code0| - 6 == j
            && (forall lost :: code1 == code0 + EncodeAll(InfixCode(OrTok, lost, right)))
            && (forall lost :: AllFit(InfixCode(OrTok, lost, right)) <==> AllFit(right) && j <= 65535)
  {
    hide AllFit, EncodeAll, Encode, Size, Hi, Lo;
    var first, second, tail := JumpIfFalse(3), Jump(1 + Size(right)), [OP_POP] + EncodeAll(right);
    EncodeTwo(first, second);
    AppendOne([first, second], Pop);
    assert [first, second] + [Pop] == [first, second, Pop];
    EncodeAllAppend([first, second, Pop], right);
    FitAppend([first, second, Pop], right);
    FitTwo(first, second);
    AppendOne([first, second, Pop] + right, ToBool);
    JumpBytes(first);
    JumpBytes(second);
    Patched(code0, OP_JUMP_IF_FALSE, [OP_JUMP, 255, 255], 3);
    var head := code0 + [OP_JUMP_IF_FALSE, Hi(3), Lo(3)];
    Patched(head, OP_JUMP, tail, 1 + Size(right));
    assert head + [OP_JUMP, 255, 255] + [OP_POP] + EncodeAll(right) == head + [OP_JUMP, 255, 255] + tail;
  }

  lemma AppendOne(a: seq<Instr>, i: Instr)
    ensures EncodeAll(a + [i]) == EncodeAll(a) + Encode(i)
    ensures AllFit(a + [i]) <==> AllFit(a) && Fits(i)
  {
    EncodeAllAppend(a, [i]);
    EncodeOne(i);
    FitAppend(a, [i]);
  }
}
