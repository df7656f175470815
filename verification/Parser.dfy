/**
  What the single-pass parser reads: which tree each stretch of tokens drives it through,
  and where it stops. The parser of the source emits code while it reads; here the tree it
  walks is made visible, so that the code can be stated as a function of the tree.

  Reading past the last token yields `Eof` again and again, as the lexer does.
 */
module Parser {
  import opened Bytecode
  import opened Syntax

  /** `away`: no error of the text, but a construct the model leaves out is where reading ends. */
  datatype ParsedExpr = BadExpr(away: bool) | GoodExpr(e: Expr, next: nat)

  datatype ParsedStmt = BadStmt(away: bool) | GoodStmt(s: Stmt, next: nat)

  datatype Position = NoPosition | At(next: nat)

  function TokenAt(ts: seq<Token>, pos: nat): Token {
    if pos < |ts| then ts[pos] else Eof
  }

  /** jml_parser_match_line: the position behind any newlines. */
  function SkipLines(ts: seq<Token>, pos: nat): (next: nat)
    ensures next >= pos
    ensures pos <= |ts| ==> next <= |ts|
    ensures next == pos <==> TokenAt(ts, pos) != Line
    ensures TokenAt(ts, next) != Line
    decreases |ts| - pos
  {
    if TokenAt(ts, pos) == Line then SkipLines(ts, pos + 1) else pos
  }

  /** jml_parser_newline: what must follow a statement. */
  function Newline(ts: seq<Token>, pos: nat): (p: Position)
    ensures p.At? ==> p.next >= pos && (pos <= |ts| ==> p.next <= |ts|)
  {
    match TokenAt(ts, pos)
    case RBrace => At(pos)
    case Semi => At(SkipLines(ts, pos + 1))
    case Line => At(SkipLines(ts, pos + 1))
    case _ => NoPosition
  }

  /** jml_parser_precedence_parse. */
  function ParsePrec(ts: seq<Token>, pos: nat, prec: nat): (r: ParsedExpr)
    ensures r.GoodExpr? ==> pos < r.next <= |ts|
    decreases |ts| - pos, 2
  {
    if pos >= |ts| then BadExpr(false)
    else
      match ParsePrefix(ts, pos, prec <= PREC_ASSIGNMENT)
      case BadExpr(away) => BadExpr(away)
      case GoodExpr(left, n) => AfterInfix(ts, ParseInfix(ts, n, prec, left), prec)
  }

  /** The last step of jml_parser_precedence_parse: an assignment sign must not follow. */
  function AfterInfix(ts: seq<Token>, r: ParsedExpr, prec: nat): ParsedExpr {
    match r
    case BadExpr(away) => BadExpr(away)
    case GoodExpr(e, m) => if prec <= PREC_ASSIGNMENT && IsAssignTok(TokenAt(ts, m)) then BadExpr(false) else r
  }

  /** The prefix column of the rule table, applied to the token at `pos`. */
  function ParsePrefix(ts: seq<Token>, pos: nat, assignable: bool): (r: ParsedExpr)
    requires pos < |ts|
    ensures r.GoodExpr? ==> pos < r.next <= |ts|
    decreases |ts| - pos, 1
  {
    match ts[pos]
    case LitTok(l) => GoodExpr(Lit(l), pos + 1)
    case NameTok(x) => ParseNamed(ts, pos + 1, x, assignable)
    case LParen =>
      (match ParsePrec(ts, SkipLines(ts, pos + 1), PREC_ASSIGNMENT)
       case BadExpr(away) => BadExpr(away)
       case GoodExpr(e, n) =>
         var m := SkipLines(ts, n);
         if TokenAt(ts, m) == RParen then GoodExpr(e, m + 1) else BadExpr(false))
    case NotTok =>
      (match ParsePrec(ts, pos + 1, PREC_UNARY)
       case BadExpr(away) => BadExpr(away)
       case GoodExpr(e, n) => GoodExpr(NotE(e), n))
    case BinTok(op) =>
      if op != Sub then BadExpr(false)
      else
        (match ParsePrec(ts, pos + 1, PREC_UNARY)
         case BadExpr(away) => BadExpr(away)
         case GoodExpr(e, n) => GoodExpr(NegE(e), n))
    case LSquare => BadExpr(true)
    case LBrace => BadExpr(true)
    case _ => BadExpr(false)
  }

  /** jml_variable_named, the name itself having been read. */
  function ParseNamed(ts: seq<Token>, pos: nat, x: string, assignable: bool): (r: ParsedExpr)
    requires 0 < pos <= |ts|
    ensures r.GoodExpr? ==> pos <= r.next <= |ts|
    decreases |ts| - pos, 3
  {
    match TokenAt(ts, pos)
    case LSquare => BadExpr(true)
    case Arrow => BadExpr(true)
    case EqualTok =>
      if !assignable then GoodExpr(Var(x), pos)
      else
        (match ParsePrec(ts, SkipLines(ts, pos + 1), PREC_ASSIGNMENT)
         case BadExpr(away) => BadExpr(away)
         case GoodExpr(e, n) => GoodExpr(Assign(x, e), n))
    case UpdateTok(op) =>
      if !assignable then GoodExpr(Var(x), pos)
      else
        (match ParsePrec(ts, SkipLines(ts, pos + 1), PREC_ASSIGNMENT)
         case BadExpr(away) => BadExpr(away)
         case GoodExpr(e, n) => GoodExpr(Update(x, op, e), n))
    case _ => GoodExpr(Var(x), pos)
  }

  /** The loop of jml_parser_precedence_parse over infix operators. */
  function ParseInfix(ts: seq<Token>, pos: nat, prec: nat, left: Expr): (r: ParsedExpr)
    requires pos <= |ts|
    ensures r.GoodExpr? ==> pos <= r.next <= |ts|
    decreases |ts| - pos, 0
  {
    var t := TokenAt(ts, pos);
    if prec > Prec(t) || pos == |ts| then GoodExpr(left, pos)
    else
      var after := SkipLines(ts, pos + 1);
      match t
      case AndTok =>
        (match ParsePrec(ts, after, PREC_AND)
         case BadExpr(away) => BadExpr(away)
         case GoodExpr(right, n) => ParseInfix(ts, n, prec, And(left, right)))
      case OrTok =>
        (match ParsePrec(ts, after, PREC_OR)
         case BadExpr(away) => BadExpr(away)
         case GoodExpr(right, n) => ParseInfix(ts, n, prec, Or(left, right)))
      case BinTok(op) =>
        // the operator is looked up after newlines were skipped, so a newline hides it
        (match ParsePrec(ts, after, if after == pos + 1 then BinPrec(op) + 1 else PREC_NONE + 1)
         case BadExpr(away) => BadExpr(away)
         case GoodExpr(right, n) =>
           ParseInfix(ts, n, prec, if after == pos + 1 then Bin(op, left, right) else Lost(left, right)))
      case _ => BadExpr(true)
  }

  /** jml_expression. */
  function ParseExpr(ts: seq<Token>, pos: nat): (r: ParsedExpr)
    ensures r.GoodExpr? ==> pos < r.next <= |ts|
  {
    ParsePrec(ts, pos, PREC_ASSIGNMENT)
  }

  /** jml_declaration. */
  function ParseDeclaration(ts: seq<Token>, pos: nat): (r: ParsedStmt)
    requires pos <= |ts|
    ensures r.GoodStmt? ==> pos < r.next <= |ts|
    decreases |ts| - pos, 1
  {
    var p := SkipLines(ts, pos);
    if TokenAt(ts, p) == LetTok then ParseLet(ts, p + 1) else ParseStatement(ts, p)
  }

  /** jml_let_declaration, `let` having been read. */
  function ParseLet(ts: seq<Token>, pos: nat): (r: ParsedStmt)
    requires pos <= |ts|
    ensures r.GoodStmt? ==> pos < r.next <= |ts|
  {
    match TokenAt(ts, pos)
    case NameTok(x) =>
      if TokenAt(ts, pos + 1) == EqualTok then
        (match ParseExpr(ts, pos + 2)
         case BadExpr(away) => BadStmt(away)
         case GoodExpr(e, n) =>
           match Newline(ts, n) case NoPosition => BadStmt(false) case At(m) => GoodStmt(LetS(x, e), m))
      else
        (match Newline(ts, pos + 1)
         case NoPosition => BadStmt(false)
         case At(m) => GoodStmt(LetS(x, Lit(NoneLit)), m))
    case _ => BadStmt(false)
  }

  /** jml_statement. */
  function ParseStatement(ts: seq<Token>, pos: nat): (r: ParsedStmt)
    requires pos <= |ts|
    ensures r.GoodStmt? ==> pos < r.next <= |ts|
    decreases |ts| - pos, 0
  {
    if pos == |ts| then BadStmt(false)
    else
      match ts[pos]
      case WhileTok => ParseWhile(ts, pos + 1)
      case BreakTok => GoodStmt(BreakS, pos + 1)
      case SkipTok => GoodStmt(SkipS, pos + 1)
      case IfTok => ParseIf(ts, pos + 1)
      case LBrace =>
        (match ParseBlock(ts, pos + 1)
         case BadStmt(away) => BadStmt(away)
         case GoodStmt(b, n) =>
           match Newline(ts, n) case NoPosition => BadStmt(false) case At(m) => GoodStmt(BlockS(b), m))
      case _ =>
        match ParseExpr(ts, pos)
        case BadExpr(away) => BadStmt(away)
        case GoodExpr(e, n) =>
          match Newline(ts, n) case NoPosition => BadStmt(false) case At(m) => GoodStmt(ExprS(e), m)
  }

  /** jml_block: declarations up to the closing brace, which is consumed. */
  function ParseBlock(ts: seq<Token>, pos: nat): (r: ParsedStmt)
    requires pos <= |ts|
    ensures r.GoodStmt? ==> pos < r.next <= |ts|
    decreases |ts| - pos, 2
  {
    if TokenAt(ts, pos) == RBrace then GoodStmt(Nop, pos + 1)
    else if TokenAt(ts, pos) == Eof then BadStmt(false)
    else
      match ParseDeclaration(ts, pos)
      case BadStmt(away) => BadStmt(away)
      case GoodStmt(first, n) =>
        match ParseBlock(ts, n)
        case BadStmt(away) => BadStmt(away)
        case GoodStmt(rest, m) => GoodStmt(Seq(first, rest), m)
  }

  /** A brace, then a block. */
  function ParseBraced(ts: seq<Token>, pos: nat): (r: ParsedStmt)
    requires pos <= |ts|
    ensures r.GoodStmt? ==> pos < r.next <= |ts|
    decreases |ts| - pos, 3
  {
    if TokenAt(ts, pos) == LBrace then ParseBlock(ts, pos + 1) else BadStmt(false)
  }

  /** jml_while_statement, `while` having been read. */
  function ParseWhile(ts: seq<Token>, pos: nat): (r: ParsedStmt)
    requires pos <= |ts|
    ensures r.GoodStmt? ==> pos < r.next <= |ts|
    decreases |ts| - pos, 4
  {
    match ParseExpr(ts, SkipLines(ts, pos))
    case BadExpr(away) => BadStmt(away)
    case GoodExpr(c, n) =>
      match ParseBraced(ts, SkipLines(ts, n))
      case BadStmt(away) => BadStmt(away)
      case GoodStmt(b, m) =>
        match Newline(ts, m) case NoPosition => BadStmt(false) case At(k) => GoodStmt(WhileS(c, b), k)
  }

  /** jml_if_statement, `if` having been read. */
  function ParseIf(ts: seq<Token>, pos: nat): (r: ParsedStmt)
    requires pos <= |ts|
    ensures r.GoodStmt? ==> pos < r.next <= |ts|
    decreases |ts| - pos, 4
  {
    match ParseExpr(ts, pos)
    case BadExpr(away) => BadStmt(away)
    case GoodExpr(c, n) =>
      match ParseBraced(ts, SkipLines(ts, n))
      case BadStmt(away) => BadStmt(away)
      case GoodStmt(yes, m) =>
        match ParseElse(ts, m)
        case BadStmt(away) => BadStmt(away)
        case GoodStmt(no, k) => GoodStmt(IfS(c, yes, no), k)
  }

  /** What may follow the first branch of an `if`. */
  function ParseElse(ts: seq<Token>, pos: nat): (r: ParsedStmt)
    requires pos <= |ts|
    ensures r.GoodStmt? ==> pos <= r.next <= |ts|
    decreases |ts| - pos, 5
  {
    if TokenAt(ts, pos) != ElseTok then
      match Newline(ts, pos) case NoPosition => BadStmt(false) case At(m) => GoodStmt(Nop, m)
    else
      var p := SkipLines(ts, pos + 1);
      if TokenAt(ts, p) == IfTok then ParseIf(ts, p + 1)
      else
        match ParseBraced(ts, p)
        case BadStmt(away) => BadStmt(away)
        case GoodStmt(no, n) =>
          match Newline(ts, n) case NoPosition => BadStmt(false) case At(m) => GoodStmt(no, m)
  }

  /** The loop of jml_compiler_compile: declarations up to the end of the source. */
  function ParseItems(ts: seq<Token>, pos: nat): (r: ParsedStmt)
    requires pos <= |ts|
    decreases |ts| - pos
  {
    if TokenAt(ts, pos) == Eof then GoodStmt(Nop, pos)
    else
      match ParseDeclaration(ts, pos)
      case BadStmt(away) => BadStmt(away)
      case GoodStmt(first, n) =>
        match ParseItems(ts, n)
        case BadStmt(away) => BadStmt(away)
        case GoodStmt(rest, m) => GoodStmt(Seq(first, rest), m)
  }

  function ParseProgram(ts: seq<Token>): ParsedStmt {
    ParseItems(ts, SkipLines(ts, 0))
  }
}
