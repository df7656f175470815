/**
  The lexer of src/jml_lexer.c, step by step, proved against what Lexing.dfy says stands at
  each position.
 */
module Scanner {
  import opened Wrappers
  import opened Lexing

  /** jml_keyword_match. */
  function KeywordMatch(w: string, start: nat, rest: string, keyword: string): Kind {
    if |w| == start + |rest| && w[start..] == rest then Keyword(keyword) else Name
  }

  /** jml_identifier_check: the nested switch over the first characters; `after` follows the word. */
  function IdentifierCheck(w: string, after: char): Kind
    requires |w| > 0
  {
    var c1, c2 := if |w| > 1 then w[1] else after, if |w| > 2 then w[2] else after;
    match w[0]
    case 'a' =>
      if |w| <= 1 then Name
      else if c1 == 's' then KeywordMatch(w, 2, "ync", "async")
      else if c1 == 'n' then KeywordMatch(w, 2, "d", "and")
      else if c1 == 'w' then KeywordMatch(w, 2, "ait", "await")
      else Name
    case 'b' => KeywordMatch(w, 1, "reak", "break")
    case 'c' => KeywordMatch(w, 1, "lass", "class")
    case 'e' => KeywordMatch(w, 1, "lse", "else")
    case 'f' =>
      if |w| <= 1 then Name
      else if c1 == 'a' then KeywordMatch(w, 2, "lse", "false")
      else if c1 == 'n' then KeywordMatch(w, 2, "", "fn")
      else if c1 == 'o' then KeywordMatch(w, 2, "r", "for")
      else if c1 == 'r' then KeywordMatch(w, 2, "om", "from")
      else Name
    case 'i' =>
      if |w| <= 1 then Name
      else if c1 == 'f' then KeywordMatch(w, 2, "", "if")
      else if c1 == 'n' then KeywordMatch(w, 2, "", "in")
      else if c1 == 'm' then KeywordMatch(w, 2, "port", "import")
      else Name
    case 'n' =>
      if |w| <= 1 || c1 != 'o' then Name
      else if c2 == 'n' then KeywordMatch(w, 3, "e", "none")
      else if c2 == 't' then KeywordMatch(w, 3, "", "not")
      else Name
    case 'm' => KeywordMatch(w, 1, "atch", "match")
    case 'o' => KeywordMatch(w, 1, "r", "or")
    case 'l' => KeywordMatch(w, 1, "et", "let")
    case 'r' => KeywordMatch(w, 1, "eturn", "return")
    case 's' =>
      if |w| <= 1 then Name
      else if c1 == 'e' then KeywordMatch(w, 2, "lf", "self")
      else if c1 == 'k' then KeywordMatch(w, 2, "ip", "skip")
      else if c1 == 'u' then KeywordMatch(w, 2, "per", "super")
      else if c1 == 'p' then KeywordMatch(w, 2, "read", "spread")
      else Name
    case 't' =>
      if |w| <= 2 || c1 != 'r' then Name
      else if c2 == 'u' then KeywordMatch(w, 3, "e", "true")
      else if c2 == 'y' then KeywordMatch(w, 3, "", "try")
      else Name
    case 'w' =>
      if |w| <= 1 then Name
      else if c1 == 'i' then KeywordMatch(w, 2, "th", "with")
      else if c1 == 'h' then KeywordMatch(w, 2, "ile", "while")
      else Name
    case '_' => KeywordMatch(w, 1, "", "_")
    case _ => Name
  }

  /** What the switch finds is a keyword, namely the word itself. */
  lemma SwitchFinds(w: string, after: char)
    requires |w| > 0
    ensures var k := IdentifierCheck(w, after); k == Name || (k == Keyword(w) && w in KEYWORDS)
  {
  }

  lemma FoundEarly(w: string, after: char)
    requires w in {"async", "and", "await", "break", "class", "else", "false", "fn", "for", "from"}
    ensures IdentifierCheck(w, after) == Keyword(w)
  {
  }

  lemma FoundMiddle(w: string, after: char)
    requires w in {"if", "in", "import", "none", "not", "match", "or", "let", "return"}
    ensures IdentifierCheck(w, after) == Keyword(w)
  {
  }

  lemma FoundLate(w: string, after: char)
    requires w in {"self", "skip", "super", "spread", "true", "try", "with", "while", "_"}
    ensures IdentifierCheck(w, after) == Keyword(w)
  {
  }

  /** The nested switch finds exactly the keywords of the flat table. */
  lemma SwitchIsTable(w: string, after: char)
    requires |w| > 0
    ensures IdentifierCheck(w, after) == Word(w)
  {
    hide IdentifierCheck;
    SwitchFinds(w, after);
    if w in {"async", "and", "await", "break", "class", "else", "false", "fn", "for", "from"} {
      FoundEarly(w, after);
    } else if w in {"if", "in", "import", "none", "not", "match", "or", "let", "return"} {
      FoundMiddle(w, after);
    } else if w in KEYWORDS {
      FoundLate(w, after);
    }
  }

  predicate IsTriple(a: char, b: char, c: char) {
    c == '=' && a == b && (a == ':' || a == '*')
  }

  predicate IsPair(a: char, b: char) {
    match a
    case '|' => b == '>'
    case ':' => b == ':'
    case '+' => b == '='
    case '-' => b == '>' || b == '='
    case '*' => b == '*' || b == '='
    case '/' => b == '='
    case '%' => b == '='
    case '=' => b == '='
    case '<' => b == '-' || b == '='
    case '>' => b == '='
    case '!' => b == '='
    case _ => false
  }

  predicate IsSingle(a: char) {
    a in ")(][}{;,.^&~#@|:+-*/%=<>"
  }

  lemma SignOfThree(t: string)
    requires |t| == 3
    ensures IsSign(t) <==> IsTriple(t[0], t[1], t[2])
  {
    if IsTriple(t[0], t[1], t[2]) {
      assert t == "::=" || t == "**=";
    }
  }

  lemma SignOfTwo(t: string)
    requires |t| == 2
    ensures IsSign(t) <==> IsPair(t[0], t[1])
  {
    assert t == [t[0], t[1]];
  }

  lemma SignOfOne(t: string)
    requires |t| == 1
    ensures IsSign(t) <==> IsSingle(t[0])
  {
    assert t == [t[0]];
  }

  /** What `SignAt` finds, decided character by character. */
  lemma Munch(s: string, i: nat)
    requires i < |s| && NoNul(s)
    ensures var a, b, c := s[i], At(s, i + 1), At(s, i + 2);
            |SignAt(s, i)| == if IsTriple(a, b, c) then 3 else if IsPair(a, b) then 2 else if IsSingle(a) then 1 else 0
    ensures SignAt(s, i) == s[i..i + |SignAt(s, i)|]
  {
    hide IsSign;
    SignOfOne(s[i..i + 1]);
    if i + 2 <= |s| {
      SignOfTwo(s[i..i + 2]);
    }
    if i + 3 <= |s| {
      SignOfThree(s[i..i + 3]);
    }
  }

  /** No newline, no new line. */
  lemma {:induction false} LinesSame(s: string, i: nat, j: nat)
    requires i <= j <= |s| && forall k :: i <= k < j ==> s[k] != '\n'
    ensures LineAt(s, i) == LineAt(s, j)
    decreases j
  {
    if i < j {
      LinesSame(s, i, j - 1);
    }
  }

  /** Skipping ends at the end of the text or in front of a token. */
  lemma {:induction false} SkipStops(s: string, i: nat, comment: bool)
    requires i <= |s|
    ensures var r := Skip(s, i, comment);
            r.current < |s| ==>
              !r.comment && s[r.current] !in " \t\r?" && (s[r.current] == '!' ==> At(s, r.current + 1) == '=')
    decreases |s| - i
  {
    if i < |s| {
      if s[i] == '?' {
        SkipStops(s, i + 1, !comment);
      } else if comment || s[i] in " \t\r" {
        SkipStops(s, i + 1, comment);
      } else if s[i] == '!' && At(s, i + 1) != '=' {
        var j := End(s, i + 1, InLine);
        if j < |s| {
          SkipStops(s, j + 1, comment);
        }
      }
    }
  }

  class Lexer {
    const source: string
    var start: nat
    var current: nat
    var line: nat
    var eof: bool
    var comment: bool

    /** `line` counts the newlines in front of `current`. */
    predicate Placed()
      reads this
    {
      NoNul(source) && start <= current <= |source| && line == LineAt(source, current)
    }

    /** At the end of the text the lexer stays where it is. */
    predicate Valid()
      reads this
    {
      Placed() && (eof ==> start == current)
    }

    function Now(): State
      reads this
    {
      State(current, comment, eof)
    }

    /** jml_lexer_init. */
    constructor (text: string)
      requires NoNul(text)
      ensures Valid() && source == text && Now() == State(0, false, false)
    {
      source := text;
      start, current, line, eof, comment := 0, 0, 1, false, false;
    }

    function Peek(): char
      reads this
    {
      At(source, current)
    }

    method Advance()
      requires Placed() && current < |source|
      modifies `current, `line
      ensures current == old(current) + 1 && line == old(line)
      ensures line + (if source[old(current)] == '\n' then 1 else 0) == LineAt(source, current)
    {
      current := current + 1;
    }

    /** jml_lexer_match. */
    method Match(expected: char) returns (ok: bool)
      requires Placed() && expected != '\n' && expected != '\0'
      modifies `current
      ensures Placed() && ok == (At(source, old(current)) == expected)
      ensures current == old(current) + if ok then 1 else 0
    {
      ok := current < |source| && source[current] == expected;
      if ok {
        current := current + 1;
      }
    }

    /** jml_token_emit. */
    function Emit(kind: Kind): Token
      reads this
    {
      Token(kind, start, current, line)
    }

    function EmitError(message: string): Token
      reads this
    {
      Token(Error(message), start, start, line)
    }

    /** jml_lexer_skip_char; a newline that ends it has been counted already. */
    method SkipChar()
      requires Placed()
      modifies `current, `line, `comment
      ensures Skipped(current, comment) == Skip(source, old(current), old(comment))
      ensures line == LineAt(source, current) + if Peek() == '\n' then 1 else 0
    {
      while true
        invariant start <= current <= |source| && line == LineAt(source, current)
        invariant Skip(source, current, comment) == Skip(source, old(current), old(comment))
        decreases |source| - current
      {
        var c := Peek();
        if comment && c != '?' && c != '\n' {
          if current == |source| {
            return;
          }
          current := current + 1;
          continue;
        }
        match c
        case ' ' => current := current + 1;
        case '\t' => current := current + 1;
        case '\r' => current := current + 1;
        case '\n' =>
          line := line + 1;
          if !comment {
            return;
          }
          current := current + 1;
        case '!' =>
          if At(source, current + 1) == '=' {
            return;
          }
          SkipLine();
        case '?' =>
          comment := !comment;
          current := current + 1;
        case _ => return;
      }
    }

    /** A `!` comment and the newline that ends it. */
    method SkipLine()
      requires Placed() && current < |source| && source[current] == '!'
      modifies `current, `line
      ensures Placed()
      ensures var j := End(source, old(current) + 1, InLine); current == if j == |source| then j else j + 1
    {
      while Peek() != '\n' && current < |source|
        invariant Placed() && old(current) <= current && (current == old(current) ==> Peek() == '!')
        invariant End(source, old(current) + 1, InLine) ==
                  End(source, if current == old(current) then current + 1 else current, InLine)
        decreases |source| - current
      {
        current := current + 1;
      }
      if Peek() == '\n' {
        line := line + 1;
        current := current + 1;
      }
    }

    /** jml_identifier_literal, the first character having been read. */
    method IdentifierLiteral() returns (t: Token)
      requires Placed() && start + 1 == current && IsIdent(source[start])
      modifies `current
      ensures Placed() && Read(t, ItemAt(source, start))
    {
      while IsIdent(Peek()) || IsDigit(Peek())
        invariant Placed() && start < current
        invariant End(source, start + 1, IsIdentNum) == End(source, current, IsIdentNum)
        decreases |source| - current
      {
        current := current + 1;
      }
      SwitchIsTable(source[start..current], Peek());
      t := Emit(IdentifierCheck(source[start..current], Peek()));
    }

    /** The token is the item that stands at `start`, and the lexer is behind it. */
    predicate Read(t: Token, r: Item)
      reads this
    {
      && current == r.next && t.kind == r.kind && t.line == line
      && (if r.kind.Error? then t.from == t.to == start else t.from == r.from && t.to == r.to)
    }

    /** jml_string_literal, the delimiter having been read. */
    method StringLiteral(delimiter: char) returns (t: Token)
      requires Placed() && start + 1 == current && source[start] == delimiter && delimiter in "'\""
      modifies `current, `line
      ensures Placed() && Read(t, StringAt(source, start))
    {
      hide LineAt, Close;
      var wide := false;
      if Peek() == delimiter && At(source, current + 1) == delimiter {
        wide := true;
        LinesSame(source, current, current + 2);
        current := current + 2;
      }
      var closed := StringEnd(delimiter, wide);
      if !closed {
        t := EmitError("Unterminated string.");
        return;
      }
      LinesSame(source, current, if wide then current + 3 else current + 1);
      if wide {
        current := current + 3;
        t := Token(Text, start + 2, start + 2 + (current - start - 4), line);
        return;
      }
      current := current + 1;
      t := Emit(Text);
    }

    /** The loop of jml_string_literal, up to the closing delimiter. */
    method StringEnd(delimiter: char, wide: bool) returns (closed: bool)
      requires Placed() && delimiter in "'\""
      modifies `current, `line
      ensures Placed() && closed == Close(source, old(current), delimiter, wide).Some?
      ensures current == if closed then Close(source, old(current), delimiter, wide).value else |source|
      ensures closed && wide ==> At(source, current + 1) == At(source, current + 2) == delimiter
    {
      while true
        invariant Placed() && old(current) <= current
        invariant Close(source, old(current), delimiter, wide) == Close(source, current, delimiter, wide)
        decreases |source| - current
      {
        if current == |source| {
          return false;
        }
        var c := Peek();
        if c == delimiter {
          if !wide {
            return true;
          }
          if At(source, current + 1) == delimiter && At(source, current + 2) == delimiter {
            return true;
          }
        } else if c == '\n' {
          line := line + 1;
        } else if c == '\\' && At(source, current + 1) == delimiter {
          current := current + 1;
        }
        current := current + 1;
      }
    }

    /** The digits of a literal with a base prefix, whose letter is next. */
    method BasedLiteral(in_: char -> bool, none: string, dot: string) returns (t: Token)
      requires Placed() && start + 1 == current < |source| && source[current] != '\n' && !in_('\0') && !in_('\n')
      modifies `current
      ensures Placed() && Read(t, Based(source, start, in_, none, dot))
    {
      current := current + 1;
      if !in_(Peek()) {
        t := EmitError(none);
        return;
      }
      while in_(Peek())
        invariant Placed() && start + 2 <= current
        invariant End(source, start + 2, in_) == End(source, current, in_)
        decreases |source| - current
      {
        current := current + 1;
      }
      if Peek() == '.' {
        t := EmitError(dot);
      } else {
        t := Emit(Number);
      }
    }

    /** jml_number_literal, the first digit having been read. */
    method NumberLiteral() returns (t: Token)
      requires Placed() && start + 1 == current && IsDigit(source[start])
      modifies `current
      ensures Placed() && Read(t, NumberAt(source, start))
    {
      hide End, LineAt, Based;
      if source[current - 1] == '0' {
        var c := Peek();
        if c == 'x' || c == 'X' {
          t := BasedLiteral(IsHex, "Unterminated hexadecimal literal.", "Invalid dot after hexadecimal literal.");
          return;
        } else if c == 'o' || c == 'O' {
          t := BasedLiteral(IsOct, "Unterminated octal literal.", "Invalid dot after octal literal.");
          return;
        } else if c == 'b' || c == 'B' {
          t := BasedLiteral(IsBin, "Unterminated binary literal.", "Invalid dot after binary literal.");
          return;
        } else if c == '0' {
          t := EmitError("Invalid leading zeroes.");
          return;
        }
      }
      Digits();
      if Peek() == '.' && IsDigit(At(source, current + 1)) {
        LinesSame(source, current, current + 1);
        current := current + 1;
        Digits();
      }
      t := Emit(Number);
    }

    method Digits()
      requires Placed()
      modifies `current
      ensures Placed() && current == End(source, old(current), IsDigit)
    {
      while IsDigit(Peek())
        invariant Placed() && old(current) <= current
        invariant End(source, old(current), IsDigit) == End(source, current, IsDigit)
        decreases |source| - current
      {
        current := current + 1;
      }
    }

    /** The token whose first character has just been read, when it is a sign. */
    method SignLiteral(c: char) returns (t: Token)
      requires Placed() && start + 1 == current && source[start] == c
      requires !IsIdent(c) && !IsDigit(c) && c !in "'\"\n?"  && (c == '!' ==> Peek() == '=')
      modifies `current
      ensures Placed() && Read(t, ItemAt(source, start))
    {
      hide LineAt, SignAt, IsIdent, IsDigit;
      Munch(source, start);
      if !IsSingle(c) && c != '!' {
        t := EmitError("Unexpected character.");
        return;
      }
      MatchRest(c);
      t := Emit(Sign(source[start..current]));
    }

    /** The further characters of the sign that starts with `c`. */
    method MatchRest(c: char)
      requires Placed() && start + 1 == current && source[start] == c && (IsSingle(c) || c == '!')
      modifies `current
      ensures Placed()
      ensures var b, d := At(source, start + 1), At(source, start + 2);
              current == start + if IsTriple(c, b, d) then 3 else if IsPair(c, b) then 2 else 1
    {
      hide LineAt;
      var m := false;
      match c {
        case '|' => m := Match('>');
        case ':' =>
          m := Match(':');
          if m {
            m := Match('=');
          }
        case '+' => m := Match('=');
        case '-' =>
          m := Match('>');
          if !m {
            m := Match('=');
          }
        case '*' =>
          m := Match('*');
          if m {
            m := Match('=');
          } else {
            m := Match('=');
          }
        case '/' => m := Match('=');
        case '%' => m := Match('=');
        case '=' => m := Match('=');
        case '<' =>
          m := Match('-');
          if !m {
            m := Match('=');
          }
        case '>' => m := Match('=');
        case '!' => m := Match('=');
        case _ =>
      }
    }

    /** jml_lexer_tokenize. */
    method Tokenize() returns (t: Token)
      requires Valid()
      modifies this
      ensures Valid() && Call(t, Now()) == Next(source, old(Now()))
    {
      if eof {
        t := Emit(Eof);
        return;
      }
      hide LineAt, ItemAt, Skip;
      SkipStops(source, current, comment);
      SkipChar();
      start := current;
      if current == |source| {
        eof := true;
        t := if comment then EmitError("Unterminated comment.") else Emit(Line);
        return;
      }
      var c := source[current];
      current := current + 1;
      if IsIdent(c) {
        t := IdentifierLiteral();
      } else if IsDigit(c) {
        t := NumberLiteral();
      } else if c == '\'' || c == '"' {
        t := StringLiteral(c);
      } else if c == '\n' {
        t := Emit(Line);
      } else {
        t := SignLiteral(c);
      }
    }
  }
}
