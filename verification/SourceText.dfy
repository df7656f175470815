/**
  From characters to behaviour: the tokens the parser gets from the lexer, the compiler run
  on a text, and for every program a text that compiles to it.
 */
module SourceText {
  import opened Wrappers
  import opened Bytecode
  import opened Syntax
  import opened Parser
  import opened Printing
  import opened Pratt
  import opened Formatting
  import opened Semantics
  import opened CodeGen
  import opened Correctness
  import opened EndToEnd
  import Lexing
  import WholeText

  /** What literals stand for; no text where a string has a wrong escape. */
  datatype Reading = Reading(number: string -> Double, text: string -> Option<string>)

  /**
    The parser's view of a token. A string with a wrong escape is `Odd`, an error of the lexer
    `Wrong`, and `Foreign` tokens belong to constructs outside of the fragment.
   */
  datatype Seen = Fit(token: Token) | Odd | Wrong | Foreign

  function SignToken(t: string): Seen {
    match t
    case "(" => Fit(LParen)
    case ")" => Fit(RParen)
    case "[" => Fit(LSquare)
    case "{" => Fit(LBrace)
    case "}" => Fit(RBrace)
    case ";" => Fit(Semi)
    case "." => Fit(Dot)
    case "|>" => Fit(Pipe)
    case "->" => Fit(Arrow)
    case "=" => Fit(EqualTok)
    case "::" => Fit(BinTok(Concat))
    case "+" => Fit(BinTok(Add))
    case "-" => Fit(BinTok(Sub))
    case "*" => Fit(BinTok(Mul))
    case "**" => Fit(BinTok(Pow))
    case "/" => Fit(BinTok(Div))
    case "%" => Fit(BinTok(Mod))
    case "==" => Fit(BinTok(Equal))
    case "!=" => Fit(BinTok(NotEq))
    case ">" => Fit(BinTok(Greater))
    case ">=" => Fit(BinTok(GreaterEq))
    case "<" => Fit(BinTok(Less))
    case "<=" => Fit(BinTok(LessEq))
    case "::=" => Fit(UpdateTok(Concat))
    case "+=" => Fit(UpdateTok(Add))
    case "-=" => Fit(UpdateTok(Sub))
    case "*=" => Fit(UpdateTok(Mul))
    case "**=" => Fit(UpdateTok(Pow))
    case "/=" => Fit(UpdateTok(Div))
    case "%=" => Fit(UpdateTok(Mod))
    case _ => Foreign
  }

  function KeywordToken(t: string): Seen {
    match t
    case "and" => Fit(AndTok)
    case "or" => Fit(OrTok)
    case "not" => Fit(NotTok)
    case "in" => Fit(BinTok(Contain))
    case "while" => Fit(WhileTok)
    case "break" => Fit(BreakTok)
    case "skip" => Fit(SkipTok)
    case "if" => Fit(IfTok)
    case "else" => Fit(ElseTok)
    case "let" => Fit(LetTok)
    case "none" => Fit(LitTok(NoneLit))
    case "true" => Fit(LitTok(BoolLit(true)))
    case "false" => Fit(LitTok(BoolLit(false)))
    case _ => Foreign
  }

  function See(kind: Lexing.Kind, text: string, r: Reading): Seen {
    match kind
    case Sign(t) => SignToken(t)
    case Keyword(t) => KeywordToken(t)
    case Name => Fit(NameTok(text))
    case Number => Fit(LitTok(NumberLit(r.number(text))))
    case Text => (match r.text(text) case None => Odd case Some(u) => Fit(LitTok(StringLit(u))))
    case Line => Fit(Line)
    case Error(_) => Wrong
    case Eof => Fit(Eof)
  }

  /** The token as it stands in the text. */
  function SeeAt(s: string, t: Lexing.Token, r: Reading): Seen {
    if t.from <= t.to <= |s| then See(t.kind, s[t.from..t.to], r) else Wrong
  }

  /** Whether some token of the text is seen like that. */
  predicate Any(s: string, a: seq<Lexing.Token>, r: Reading, seen: Seen) {
    exists i :: 0 <= i < |a| && SeeAt(s, a[i], r) == seen
  }

  /** All tokens can be given to the parser. */
  predicate Parsable(s: string, a: seq<Lexing.Token>, r: Reading) {
    !Any(s, a, r, Wrong) && !Any(s, a, r, Foreign)
  }

  /** The token given to the parser; of a string with a wrong escape it sees that it is one. */
  function Given(seen: Seen): Token {
    if seen.Fit? then seen.token else LitTok(StringLit(""))
  }

  function Tokens(s: string, a: seq<Lexing.Token>, r: Reading): (ts: seq<Token>) {
    if a == [] then [] else Tokens(s, a[..|a| - 1], r) + [Given(SeeAt(s, a[|a| - 1], r))]
  }

  lemma {:induction false} TokensAt(s: string, a: seq<Lexing.Token>, r: Reading, i: nat)
    requires i < |a|
    ensures |Tokens(s, a, r)| == |a| && Tokens(s, a, r)[i] == Given(SeeAt(s, a[i], r))
    decreases |a|
  {
    hide SeeAt, Given;
    var b := a[..|a| - 1];
    if b != [] {
      TokensAt(s, b, r, if i < |b| then i else 0);
    }
  }

  /** The tokens of a text, as the parser gets them. */
  function TokensOf(s: string, r: Reading): seq<Token>
    requires Lexing.NoNul(s)
  {
    Tokens(s, WholeText.All(s, WholeText.BEGIN), r)
  }

  /** No error of the lexer anywhere, and a construct the model leaves out in front of any error of the grammar. */
  predicate GoesOutside(s: string, r: Reading)
    requires Lexing.NoNul(s)
  {
    var a := WholeText.All(s, WholeText.BEGIN);
    !Any(s, a, r, Wrong) && (Any(s, a, r, Foreign) || Leaves(TokensOf(s, r)))
  }

  /** The compiler has nothing to object to. */
  predicate Accepts(s: string, r: Reading)
    requires Lexing.NoNul(s)
  {
    var a := WholeText.All(s, WholeText.BEGIN);
    Parsable(s, a, r) && !Any(s, a, r, Odd) && Taken(TokensOf(s, r))
  }

  /** The program of an accepted text. */
  function Program(s: string, r: Reading): Stmt
    requires Lexing.NoNul(s) && Accepts(s, r)
  {
    ParseProgram(TokensOf(s, r)).s
  }

  /** No operator of an accepted text ends a line. */
  predicate OperatorsStay(s: string, r: Reading)
    requires Lexing.NoNul(s) && Accepts(s, r)
  {
    Kept(TokensOf(s, r), 0, ParseProgram(TokensOf(s, r)).next)
  }

  /**
    A text is compiled, refused, or goes outside of the fragment: the last, if it has no error
    of the lexer and the parser meets a construct the model leaves out, or such a token stands
    anywhere. Else it is compiled exactly if it has no error of the lexer and no wrong escape,
    the grammar reads it, its names and loop statements are in order and its jumps are short
    enough. If moreover no operator ends a line and the use of the stack can be predicted,
    what its bytes do when run is what the program means.
   */
  method CompileSource(text: string, r: Reading) returns (c: Compilation)
    requires Lexing.NoNul(text)
    ensures c == Outside <==> GoesOutside(text, r)
    ensures c.Done? <==> Accepts(text, r)
    ensures c.Done? ==> var p := Program(text, r);
      && (OperatorsStay(text, r) <==> CleanS(p))
      && (OperatorsStay(text, r) && Framed(p, 0, 1, None) ==> Realizes(c.code, c.constants, p))
  {
    hide WholeText.All, SeeAt, ParseProgram, Realizes, Framed, CleanS, Kept, Taken, Leaves, Any, Given;
    var a := WholeText.TokenizeAll(text);
    var ts: seq<Token> := [];
    var odd, wrong, foreign, i := false, false, false, 0;
    assert a[..0] == [];
    NoneSeen(text, r);
    while i < |a|
      invariant 0 <= i <= |a| && ts == Tokens(text, a[..i], r)
      invariant odd == Any(text, a[..i], r, Odd) && wrong == Any(text, a[..i], r, Wrong)
      invariant foreign == Any(text, a[..i], r, Foreign)
    {
      var seen := SeeAt(text, a[i], r);
      OneMoreSeen(text, a, r, i);
      odd, wrong, foreign := odd || seen == Odd, wrong || seen == Wrong, foreign || seen == Foreign;
      ts := ts + [Given(seen)];
      i := i + 1;
    }
    assert a[..i] == a;
    if wrong {
      return Refused;
    }
    if foreign {
      return Outside;
    }
    c := CompileText(ts);
    if odd && c.Done? {
      c := Refused;
    }
  }

  lemma NoneSeen(s: string, r: Reading)
    ensures forall seen :: !Any(s, [], r, seen)
  {
  }

  lemma OneMoreSeen(s: string, a: seq<Lexing.Token>, r: Reading, i: nat)
    requires i < |a|
    ensures forall seen :: Any(s, a[..i + 1], r, seen) <==> Any(s, a[..i], r, seen) || SeeAt(s, a[i], r) == seen
    ensures Tokens(s, a[..i + 1], r) == Tokens(s, a[..i], r) + [Given(SeeAt(s, a[i], r))]
  {
    hide SeeAt, Given;
    var b := a[..i + 1];
    assert b[..i] == a[..i] && b[i] == a[i];
    forall seen
      ensures Any(s, b, r, seen) <==> Any(s, a[..i], r, seen) || SeeAt(s, a[i], r) == seen
    {
      if k :| 0 <= k < |b| && SeeAt(s, b[k], r) == seen {
        assert k < i ==> a[..i][k] == b[k];
      }
      if k :| 0 <= k < i && SeeAt(s, a[..i][k], r) == seen {
        assert b[k] == a[..i][k];
      }
    }
  }

  /* For every program there is such a text. */

  function SignOf(op: BinOp): string {
    match op
    case Concat => "::"
    case Add => "+"
    case Sub => "-"
    case Mul => "*"
    case Pow => "**"
    case Div => "/"
    case Mod => "%"
    case Equal => "=="
    case NotEq => "!="
    case Greater => ">"
    case GreaterEq => ">="
    case Less => "<"
    case LessEq => "<="
    case Contain => "in"
  }

  function Sign(t: string): WholeText.Written {
    WholeText.Written(Lexing.Sign(t), t)
  }

  function Keyword(t: string): WholeText.Written {
    WholeText.Written(Lexing.Keyword(t), t)
  }

  /** How a token is written; `spell` writes the numbers and strings. */
  function Write(t: Token, spell: Literal -> string): WholeText.Written {
    match t
    case LParen => Sign("(")
    case RParen => Sign(")")
    case LSquare => Sign("[")
    case LBrace => Sign("{")
    case RBrace => Sign("}")
    case Semi => Sign(";")
    case Dot => Sign(".")
    case Pipe => Sign("|>")
    case Arrow => Sign("->")
    case BinTok(op) => if op == Contain then Keyword("in") else Sign(SignOf(op))
    case EqualTok => Sign("=")
    case UpdateTok(op) => Sign(SignOf(op) + "=")
    case AndTok => Keyword("and")
    case OrTok => Keyword("or")
    case NotTok => Keyword("not")
    case WhileTok => Keyword("while")
    case BreakTok => Keyword("break")
    case SkipTok => Keyword("skip")
    case IfTok => Keyword("if")
    case ElseTok => Keyword("else")
    case LetTok => Keyword("let")
    case LitTok(l) =>
      (match l
       case NoneLit => Keyword("none")
       case BoolLit(b) => Keyword(if b then "true" else "false")
       case NumberLit(_) => WholeText.Written(Lexing.Number, spell(l))
       case StringLit(_) => WholeText.Written(Lexing.Text, spell(l)))
    case NameTok(x) => WholeText.Written(Lexing.Name, x)
    case Line => WholeText.Written(Lexing.Line, "\n")
    case Eof => WholeText.Written(Lexing.Eof, "")
  }

  /** Names are words, and the spelling of a literal stands for it. */
  predicate Writable(t: Token, r: Reading, spell: Literal -> string) {
    match t
    case NameTok(x) => WholeText.IsWord(x) && x !in Lexing.KEYWORDS
    case LitTok(l) =>
      (match l
       case NumberLit(d) => WholeText.IsDecimal(spell(l)) && r.number(spell(l)) == d
       case StringLit(u) => WholeText.IsQuoted(spell(l)) && r.text(spell(l)) == Some(u)
       case _ => true)
    case UpdateTok(op) => HasUpdate(op)
    case Eof => false
    case _ => true
  }

  lemma WrittenSeen(t: Token, r: Reading, spell: Literal -> string)
    requires Writable(t, r, spell)
    ensures var w := Write(t, spell); WholeText.Spelt(w) && See(w.kind, w.text, r) == Fit(t)
  {
    hide WholeText.IsDecimal, WholeText.IsQuoted, WholeText.IsWord;
    if t.UpdateTok? {
      UpdateSigns();
    }
  }

  lemma UpdateSigns()
    ensures "::" + "=" == "::=" && "+" + "=" == "+=" && "-" + "=" == "-=" && "*" + "=" == "*="
    ensures "**" + "=" == "**=" && "/" + "=" == "/=" && "%" + "=" == "%="
  {
  }

  function WriteAll(ts: seq<Token>, spell: Literal -> string): (ws: seq<WholeText.Written>)
    ensures |ws| == |ts| && forall i :: 0 <= i < |ts| ==> ws[i] == Write(ts[i], spell)
  {
    seq(|ts|, i requires 0 <= i < |ts| => Write(ts[i], spell))
  }

  predicate AllWritable(ts: seq<Token>, r: Reading, spell: Literal -> string) {
    forall i :: 0 <= i < |ts| ==> Writable(ts[i], r, spell)
  }

  /** A program as a text: its tokens with a blank in front of each, but for the last newline. */
  function TextOf(s: Stmt, spell: Literal -> string): string
    requires IsList(s) && s != Nop
  {
    var ts := PrintList(s);
    if ts == [] then "" else WholeText.Spaced(WriteAll(ts[..|ts| - 1], spell))
  }

  /** The lexer gives written tokens back, the newline and the end behind them. */
  lemma TokensRead(ts: seq<Token>, r: Reading, spell: Literal -> string)
    requires AllWritable(ts, r, spell)
    ensures var s := WholeText.Spaced(WriteAll(ts, spell));
      && Lexing.NoNul(s)
      && var a := WholeText.All(s, WholeText.BEGIN);
         Parsable(s, a, r) && !Any(s, a, r, Odd) && TokensOf(s, r) == ts + [Line, Eof]
  {
    hide WholeText.All, WholeText.Spaced, WholeText.Spelt, Writable, Write, See, Tokens;
    var ws := WriteAll(ts, spell);
    var s := WholeText.Spaced(ws);
    forall w | w in ws ensures WholeText.Spelt(w) {
      var i :| 0 <= i < |ws| && ws[i] == w;
      WrittenSeen(ts[i], r, spell);
    }
    WholeText.LexRoundTrip(ws);
    var a := WholeText.All(s, WholeText.BEGIN);
    WholeText.Inside(s, WholeText.BEGIN);
    var all := ts + [Line, Eof];
    forall i | 0 <= i < |a| ensures SeeAt(s, a[i], r) == Fit(all[i]) {
      if i < |ts| {
        WrittenSeen(ts[i], r, spell);
        assert WholeText.Same(s, a[i], ws[i]);
      } else {
        assert a[i] in a;
        EndSeen(s, a[i], r);
      }
    }
    SameTokens(s, a, r, all);
  }

  lemma EndSeen(s: string, t: Lexing.Token, r: Reading)
    requires (t.kind == Lexing.Line || t.kind == Lexing.Eof) && t.from <= t.to <= |s|
    ensures SeeAt(s, t, r) == Fit(if t.kind == Lexing.Line then Line else Eof)
  {
  }

  lemma SameTokens(s: string, a: seq<Lexing.Token>, r: Reading, all: seq<Token>)
    requires |a| == |all| && forall i :: 0 <= i < |a| ==> SeeAt(s, a[i], r) == Fit(all[i])
    ensures Parsable(s, a, r) && !Any(s, a, r, Odd) && Tokens(s, a, r) == all
  {
    hide SeeAt, Given;
    GivenFit();
    forall i | 0 <= i < |a| ensures |Tokens(s, a, r)| == |a| && Tokens(s, a, r)[i] == all[i] {
      TokensAt(s, a, r, i);
    }
    assert a == [] ==> Tokens(s, a, r) == [];
  }

  lemma GivenFit()
    ensures forall t :: Given(Fit(t)) == t
  {
  }

  /** Outside of loops every statement ends its line. */
  lemma {:induction false} LastLine(s: Stmt, sc: Scope, depth: nat)
    requires IsItem(s) && Ok(s, sc, depth, false)
    ensures PrintItem(s) != [] && PrintItem(s)[|PrintItem(s)| - 1] == Line
    decreases s
  {
    hide Print, PrintList, Braced, OkE, After;
    if s.IfS? && s.no.IfS? {
      LastLine(s.no, After(s.yes, sc, depth), depth);
    }
  }

  lemma {:induction false} ListLastLine(s: Stmt, sc: Scope, depth: nat)
    requires IsList(s) && s != Nop && Ok(s, sc, depth, false)
    ensures PrintList(s) != [] && PrintList(s)[|PrintList(s)| - 1] == Line
    decreases s
  {
    hide PrintItem, After;
    LastLine(s.first, sc, depth);
    if s.rest != Nop {
      ListLastLine(s.rest, After(s.first, sc, depth), depth);
    }
  }

  /**
    Every program has a text that the compiler accepts as that program, keeping all its
    operators, whatever its names and literals, if only these can be written.
   */
  lemma SourceRoundTrip(s: Stmt, r: Reading, spell: Literal -> string)
    requires IsList(s) && s != Nop && CleanS(s) && Ok(s, MainScope, 0, false) && AllFit(GenProgram(s))
    requires AllWritable(PrintList(s), r, spell)
    ensures var text := TextOf(s, spell);
      && Lexing.NoNul(text) && Accepts(text, r) && Program(text, r) == s && OperatorsStay(text, r)
  {
    hide PrintList, Ok, GenProgram, CleanS, IsList, ParseProgram, Kept, WholeText.All, Tokens, Writable, WholeText.Spaced;
    var ts, text := PrintList(s), TextOf(s, spell);
    ListLastLine(s, MainScope, 0);
    var front := ts[..|ts| - 1];
    TokensRead(front, r, spell);
    assert front + [Line, Eof] == ts + [Eof];
    ProgramRoundTrip(s);
    PrintedTextKept(s);
  }
}
