/**
  What the lexer of src/jml_lexer.c makes of a text: how far each construct reaches, which
  token stands at a position, and the tokens of a whole text. The end of the text reads as
  a NUL, which the text itself does not contain.
 */
module Lexing {
  import opened Wrappers

  datatype Kind =
    | Sign(text: string)
    | Keyword(text: string)
    | Name
    | Number
    | Text
    | Line
    | Error(message: string)
    | Eof

  /** The slice of the source is `from..to`; errors have an empty one. */
  datatype Token = Token(kind: Kind, from: nat, to: nat, line: nat)

  datatype State = State(current: nat, comment: bool, eof: bool)

  predicate NoNul(s: string) {
    '\0' !in s
  }

  function At(s: string, i: nat): char {
    if i < |s| then s[i] else '\0'
  }

  predicate IsDigit(c: char) {
    '0' <= c <= '9'
  }

  predicate IsHex(c: char) {
    'a' <= c <= 'f' || 'A' <= c <= 'F' || IsDigit(c)
  }

  predicate IsOct(c: char) {
    '0' <= c <= '7'
  }

  predicate IsBin(c: char) {
    c == '0' || c == '1'
  }

  predicate IsIdent(c: char) {
    'a' <= c <= 'z' || 'A' <= c <= 'Z' || c == '_'
  }

  predicate IsIdentNum(c: char) {
    IsIdent(c) || IsDigit(c)
  }

  /** The line of a position: one more than the newlines in front of it. */
  function LineAt(s: string, i: nat): nat
    requires i <= |s|
  {
    if i == 0 then 1 else LineAt(s, i - 1) + if s[i - 1] == '\n' then 1 else 0
  }

  /** The first position from `i` on where the characters of a class end. */
  function End(s: string, i: nat, in_: char -> bool): (j: nat)
    requires i <= |s|
    ensures i <= j <= |s|
    ensures j < |s| ==> !in_(s[j])
    decreases |s| - i
  {
    if i < |s| && in_(s[i]) then End(s, i + 1, in_) else i
  }

  function InLine(c: char): bool {
    c != '\n'
  }

  datatype Skipped = Skipped(current: nat, comment: bool)

  /** jml_lexer_skip_char: blanks, `!` comments to the end of the line, and `?` comments. */
  function Skip(s: string, i: nat, comment: bool): (r: Skipped)
    requires i <= |s|
    ensures i <= r.current <= |s|
    decreases |s| - i
  {
    if i == |s| then Skipped(i, comment)
    else if s[i] == '?' then Skip(s, i + 1, !comment)
    else if comment || s[i] in " \t\r" then Skip(s, i + 1, comment)
    else if s[i] == '!' && At(s, i + 1) != '=' then
      var j := End(s, i + 1, InLine);
      if j == |s| then Skipped(j, comment) else Skip(s, j + 1, comment)
    else Skipped(i, comment)
  }

  /** The position of the delimiter that ends a string, or of the first of three. */
  function Close(s: string, i: nat, delimiter: char, wide: bool): (r: Option<nat>)
    requires i <= |s| && delimiter != '\0'
    ensures r.Some? ==> i <= r.value && r.value + (if wide then 3 else 1) <= |s| && s[r.value] == delimiter
    decreases |s| - i
  {
    if i == |s| then None
    else if s[i] == delimiter && (!wide || (At(s, i + 1) == delimiter && At(s, i + 2) == delimiter)) then Some(i)
    else if s[i] != delimiter && s[i] == '\\' && At(s, i + 1) == delimiter then Close(s, i + 2, delimiter, wide)
    else Close(s, i + 1, delimiter, wide)
  }

  /** What stands at a position: its kind, its slice, and where the lexer goes on. */
  datatype Item = Item(kind: Kind, from: nat, to: nat, next: nat)

  function Plain(kind: Kind, from: nat, to: nat): Item {
    Item(kind, from, to, to)
  }

  function Bad(message: string, next: nat): Item {
    Item(Error(message), 0, 0, next)
  }

  /** jml_string_literal, the delimiter at `i` having been read. */
  function StringAt(s: string, i: nat): (r: Item)
    requires i < |s| && s[i] != '\0'
    ensures i < r.next <= |s|
  {
    var d := s[i];
    var wide := At(s, i + 1) == d && At(s, i + 2) == d;
    match Close(s, if wide then i + 3 else i + 1, d, wide)
    case None => Bad("Unterminated string.", |s|)
    case Some(j) => if wide then Item(Text, i + 2, j + 1, j + 3) else Plain(Text, i, j + 1)
  }

  function Based(s: string, i: nat, in_: char -> bool, none: string, dot: string): (r: Item)
    requires i + 2 <= |s|
    ensures i < r.next <= |s|
    ensures r.kind.Error? || (r.kind == Number && r.from == i && r.to == r.next)
  {
    var j := End(s, i + 2, in_);
    if j == i + 2 then Bad(none, i + 2)
    else if At(s, j) == '.' then Bad(dot, j)
    else Plain(Number, i, j)
  }

  /** jml_number_literal, the digit at `i` having been read. */
  function NumberAt(s: string, i: nat): (r: Item)
    requires i < |s|
    ensures i < r.next <= |s|
    ensures r.kind.Error? || (r.kind == Number && r.from == i && r.to == r.next)
  {
    var c := At(s, i + 1);
    if s[i] == '0' && (c == 'x' || c == 'X') then
      Based(s, i, IsHex, "Unterminated hexadecimal literal.", "Invalid dot after hexadecimal literal.")
    else if s[i] == '0' && (c == 'o' || c == 'O') then
      Based(s, i, IsOct, "Unterminated octal literal.", "Invalid dot after octal literal.")
    else if s[i] == '0' && (c == 'b' || c == 'B') then
      Based(s, i, IsBin, "Unterminated binary literal.", "Invalid dot after binary literal.")
    else if s[i] == '0' && c == '0' then Bad("Invalid leading zeroes.", i + 1)
    else
      var j := End(s, i + 1, IsDigit);
      Plain(Number, i, if At(s, j) == '.' && IsDigit(At(s, j + 1)) then End(s, j + 1, IsDigit) else j)
  }

  const KEYWORDS: set<string> := {
    "async", "and", "await", "break", "class", "else", "false", "fn", "for", "from", "if", "in", "import", "none",
    "not", "match", "or", "let", "return", "self", "skip", "super", "spread", "true", "try", "with", "while", "_"
  }

  function Word(w: string): Kind {
    if w in KEYWORDS then Keyword(w) else Name
  }

  predicate IsSign(t: string) {
    t in {")", "(", "]", "[", "}", "{", ";", ",", ".", "^", "&", "~", "#", "@"} || IsLongSign(t)
  }

  predicate IsLongSign(t: string) {
    t in {"|", "|>", ":", "::", "::=", "+", "+=", "-", "->", "-=", "*", "**", "**=", "*=", "/", "/=", "%", "%=",
          "=", "==", "<", "<-", "<=", ">", ">=", "!="}
  }

  predicate Starts(s: string, i: nat, t: string) {
    i + |t| <= |s| && s[i..i + |t|] == t
  }

  /** The longest of the signs that stand at a position; the text is empty where there is none. */
  function SignAt(s: string, i: nat): (t: string)
    ensures t != "" ==> IsSign(t) && Starts(s, i, t)
  {
    if i + 3 <= |s| && IsSign(s[i..i + 3]) then s[i..i + 3]
    else if i + 2 <= |s| && IsSign(s[i..i + 2]) then s[i..i + 2]
    else if i + 1 <= |s| && IsSign(s[i..i + 1]) then s[i..i + 1]
    else ""
  }

  /** The token that starts at a position which holds no blank and no comment. */
  function ItemAt(s: string, i: nat): (r: Item)
    requires i < |s| && NoNul(s)
    ensures i < r.next <= |s|
    ensures !r.kind.Error? ==> i <= r.from <= r.to <= r.next
    ensures r.kind != Eof
  {
    if IsIdent(s[i]) then
      var j := End(s, i + 1, IsIdentNum);
      Plain(Word(s[i..j]), i, j)
    else if IsDigit(s[i]) then NumberAt(s, i)
    else if s[i] == '"' || s[i] == '\'' then StringAt(s, i)
    else if s[i] == '\n' then Plain(Line, i, i + 1)
    else if SignAt(s, i) != "" then Plain(Sign(SignAt(s, i)), i, i + |SignAt(s, i)|)
    else Bad("Unexpected character.", i + 1)
  }

  datatype Call = Call(token: Token, state: State)

  /** jml_lexer_tokenize. */
  function Next(s: string, st: State): (r: Call)
    requires st.current <= |s| && NoNul(s)
    ensures st.current <= r.state.current <= |s|
    ensures !st.eof ==> r.state.current > st.current || r.state.eof
    ensures (st.eof ==> st.current == |s|) && r.state.eof ==> r.state.current == |s|
  {
    if st.eof then Call(Token(Eof, st.current, st.current, LineAt(s, st.current)), st)
    else
      var k := Skip(s, st.current, st.comment);
      if k.current == |s| then
        Call(Token(if k.comment then Error("Unterminated comment.") else Line, |s|, |s|, LineAt(s, |s|)),
             State(|s|, k.comment, true))
      else
        var r := ItemAt(s, k.current);
        Call(Token(r.kind, if r.kind.Error? then k.current else r.from, if r.kind.Error? then k.current else r.to, LineAt(s, r.next)),
             State(r.next, k.comment, false))
  }
}
