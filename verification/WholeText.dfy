/**
  Whole runs of the lexer: it ends, its tokens stand in the text one behind another, their
  line numbers are true, and tokens written with blanks between them are read back.
 */
module WholeText {
  import opened Wrappers
  import opened Lexing
  import opened Scanner

  predicate Sound(s: string, st: State) {
    NoNul(s) && st.current <= |s| && (st.eof ==> st.current == |s|)
  }

  const BEGIN := State(0, false, false)

  /** The tokens of the calls up to the first one that yields the end of the text. */
  function All(s: string, st: State): seq<Token>
    requires Sound(s, st)
    decreases if st.eof then 0 else |s| - st.current + 1
  {
    var c := Next(s, st);
    if st.eof then [c.token] else [c.token] + All(s, c.state)
  }

  /** The tokens of `n` calls. */
  function Calls(s: string, st: State, n: nat): seq<Token>
    requires Sound(s, st)
    decreases n
  {
    if n == 0 then [] else [Next(s, st).token] + Calls(s, Next(s, st).state, n - 1)
  }

  function EofAt(s: string): Token {
    Token(Eof, |s|, |s|, LineAt(s, |s|))
  }

  function Eofs(s: string, n: nat): seq<Token> {
    seq(n, i => EofAt(s))
  }

  /** On a text of `n` characters the end is reached within `n + 2` calls. */
  lemma {:induction false} EndsSoon(s: string, st: State)
    requires Sound(s, st)
    ensures 1 <= |All(s, st)| <= if st.eof then 1 else |s| - st.current + 2
    ensures var a := All(s, st); a[|a| - 1] == EofAt(s) && forall i :: 0 <= i < |a| - 1 ==> a[i].kind != Eof
    decreases if st.eof then 0 else |s| - st.current + 1
  {
    if !st.eof {
      EndsSoon(s, Next(s, st).state);
    }
  }

  lemma {:induction false} EofCalls(s: string, st: State, n: nat)
    requires Sound(s, st) && st.eof
    ensures Calls(s, st, n) == Eofs(s, n)
    decreases n
  {
    if n > 0 {
      EofCalls(s, st, n - 1);
      assert Eofs(s, n) == [EofAt(s)] + Eofs(s, n - 1);
    }
  }

  /** From then on every call yields the end again. */
  lemma {:induction false} StaysAtEnd(s: string, st: State, n: nat)
    requires Sound(s, st) && n >= |All(s, st)|
    ensures Calls(s, st, n) == All(s, st) + Eofs(s, n - |All(s, st)|)
    decreases n
  {
    hide Next, LineAt, Eofs;
    EndsSoon(s, st);
    if st.eof {
      EofCalls(s, st, n);
      EofFirst(s, n);
    } else {
      var c := Next(s, st);
      StaysAtEnd(s, c.state, n - 1);
      var rest, more := All(s, c.state), Eofs(s, n - |All(s, st)|);
      assert [c.token] + (rest + more) == ([c.token] + rest) + more;
    }
  }

  lemma EofFirst(s: string, n: nat)
    requires n > 0
    ensures Eofs(s, n) == [EofAt(s)] + Eofs(s, n - 1)
  {
  }

  /** No slice begins before the place where the lexer started, and all are slices of the text. */
  lemma {:induction false} Inside(s: string, st: State)
    requires Sound(s, st)
    ensures forall t :: t in All(s, st) ==> st.current <= t.from <= t.to <= |s|
    ensures forall t :: t in All(s, st) ==> t.line >= LineAt(s, st.current)
    decreases if st.eof then 0 else |s| - st.current + 1
  {
    if !st.eof {
      var c := Next(s, st);
      Inside(s, c.state);
      NextInside(s, st);
      LinesGrow(s, st.current, c.state.current);
    }
  }

  lemma NextInside(s: string, st: State)
    requires Sound(s, st)
    ensures var c := Next(s, st);
            st.current <= c.token.from <= c.token.to <= c.state.current && c.token.line == LineAt(s, c.state.current)
  {
    hide Skip, ItemAt, LineAt;
  }

  lemma {:induction false} LinesGrow(s: string, i: nat, j: nat)
    requires i <= j <= |s|
    ensures LineAt(s, i) <= LineAt(s, j)
    decreases j
  {
    if i < j {
      LinesGrow(s, i, j - 1);
    }
  }

  predicate Behind(t: Token, u: Token) {
    t.to <= u.from && t.line <= u.line
  }

  predicate Ordered(a: seq<Token>) {
    forall i, j :: 0 <= i < j < |a| ==> Behind(a[i], a[j])
  }

  lemma OrderedMore(t: Token, rest: seq<Token>)
    requires Ordered(rest) && forall u :: u in rest ==> Behind(t, u)
    ensures Ordered([t] + rest)
  {
    var a := [t] + rest;
    forall i, j | 0 <= i < j < |a|
      ensures Behind(a[i], a[j])
    {
      assert a[j] == rest[j - 1];
      if i > 0 {
        assert a[i] == rest[i - 1];
      }
    }
  }

  /** The tokens of a text stand in it one behind another, on lines that never go back. */
  lemma {:induction false} InOrder(s: string, st: State)
    requires Sound(s, st)
    ensures Ordered(All(s, st))
    decreases if st.eof then 0 else |s| - st.current + 1
  {
    hide Next, Ordered;
    if !st.eof {
      var c := Next(s, st);
      InOrder(s, c.state);
      Inside(s, c.state);
      NextInside(s, st);
      OrderedMore(c.token, All(s, c.state));
    } else {
      OrderedOne(Next(s, st).token);
    }
  }

  lemma OrderedOne(t: Token)
    ensures Ordered([t])
  {
  }

  /** The line of a token is the line its slice ends on. */
  lemma {:induction false} TrueLines(s: string, st: State)
    requires Sound(s, st)
    ensures forall t :: t in All(s, st) && !t.kind.Error? ==> t.to <= |s| && t.line == LineAt(s, t.to)
    decreases if st.eof then 0 else |s| - st.current + 1
  {
    NextLine(s, st);
    if !st.eof {
      TrueLines(s, Next(s, st).state);
    }
  }

  lemma NextLine(s: string, st: State)
    requires Sound(s, st)
    ensures var c := Next(s, st); !c.token.kind.Error? ==> c.token.to <= |s| && c.token.line == LineAt(s, c.token.to)
  {
    var k := Skip(s, st.current, st.comment);
    if !st.eof && k.current < |s| && !ItemAt(s, k.current).kind.Error? {
      ItemLine(s, k.current);
    }
    hide Skip, ItemAt, LineAt;
  }

  lemma ItemLine(s: string, i: nat)
    requires i < |s| && NoNul(s) && !ItemAt(s, i).kind.Error?
    ensures var r := ItemAt(s, i); LineAt(s, r.to) == LineAt(s, r.next)
  {
    hide SignAt, NumberAt, StringAt, Word, End, Close, IsSign, Starts, LineAt;
    var r := ItemAt(s, i);
    if !IsIdent(s[i]) && !IsDigit(s[i]) && (s[i] == '"' || s[i] == '\'') {
      WideEnd(s, i);
    }
  }

  lemma WideEnd(s: string, i: nat)
    requires i < |s| && NoNul(s) && (s[i] == '"' || s[i] == '\'') && !StringAt(s, i).kind.Error?
    ensures var r := StringAt(s, i); LineAt(s, r.to) == LineAt(s, r.next)
  {
    var d := s[i];
    var wide := At(s, i + 1) == d && At(s, i + 2) == d;
    CloseDelimiters(s, if wide then i + 3 else i + 1, d, wide);
    hide Close;
  }

  lemma {:induction false} CloseDelimiters(s: string, i: nat, d: char, wide: bool)
    requires i <= |s| && d != '\0' && Close(s, i, d, wide).Some?
    ensures var j := Close(s, i, d, wide).value; wide ==> s[j + 1] == s[j + 2] == d
    decreases |s| - i
  {
    if !(s[i] == d && (!wide || (At(s, i + 1) == d && At(s, i + 2) == d))) {
      if s[i] != d && s[i] == '\\' && At(s, i + 1) == d {
        CloseDelimiters(s, i + 2, d, wide);
      } else {
        CloseDelimiters(s, i + 1, d, wide);
      }
    }
  }

  /** No longer sign stands where a sign was read. */
  lemma SignIsLongest(s: string, i: nat, t: string)
    requires IsSign(t) && Starts(s, i, t)
    ensures |t| <= |SignAt(s, i)|
  {
  }

  lemma AllStep(s: string, st: State)
    requires Sound(s, st)
    ensures var c := Next(s, st); All(s, st) == if st.eof then [c.token] else [c.token] + All(s, c.state)
  {
  }

  /** The tokens of a text, one call after another. */
  method TokenizeAll(text: string) returns (tokens: seq<Token>)
    requires NoNul(text)
    ensures tokens == All(text, BEGIN) && |tokens| <= |text| + 2
    ensures tokens[|tokens| - 1] == EofAt(text) && Ordered(tokens)
  {
    hide Next, LineAt, Ordered, All;
    var lexer := new Lexer(text);
    tokens := [];
    EndsSoon(text, BEGIN);
    InOrder(text, BEGIN);
    while !lexer.eof
      invariant lexer.Valid() && lexer.source == text && Sound(text, lexer.Now())
      invariant tokens + All(text, lexer.Now()) == All(text, BEGIN)
      decreases if lexer.eof then 0 else |text| - lexer.current + 1
    {
      AllStep(text, lexer.Now());
      var t := lexer.Tokenize();
      tokens := tokens + [t];
    }
    AllStep(text, lexer.Now());
    var t := lexer.Tokenize();
    tokens := tokens + [t];
  }

  /** A token to be written, and its spelling. */
  datatype Written = Written(kind: Kind, text: string)

  predicate Spelt(w: Written) {
    match w.kind
    case Sign(t) => w.text == t && IsSign(t)
    case Keyword(t) => w.text == t && t in KEYWORDS
    case Name => IsWord(w.text) && w.text !in KEYWORDS
    case Number => IsDecimal(w.text)
    case Text => IsQuoted(w.text)
    case Line => w.text == "\n"
    case _ => false
  }

  predicate IsWord(t: string) {
    t != "" && IsIdent(t[0]) && forall k :: 0 <= k < |t| ==> IsIdentNum(t[k])
  }

  /** Digits without leading zeroes, and perhaps a point and more digits. */
  predicate IsDecimal(t: string) {
    t != "" && IsDigit(t[0]) &&
    var n := End(t, 0, IsDigit);
    (t[0] == '0' ==> n == 1) &&
    (n == |t| || (t[n] == '.' && n + 1 < |t| && End(t, n + 1, IsDigit) == |t|))
  }

  /** A delimiter, and what it ends only with its last character. */
  predicate IsQuoted(t: string) {
    |t| >= 2 && (t[0] == '"' || t[0] == '\'') && NoNul(t) && Close(t, 1, t[0], false) == Some(|t| - 1)
  }

  /** A blank in front of every token. */
  function Spaced(ws: seq<Written>): string {
    if ws == [] then "" else " " + ws[0].text + Spaced(ws[1..])
  }

  lemma {:induction false} EndIs(s: string, i: nat, j: nat, in_: char -> bool)
    requires i <= j <= |s| && (forall k :: i <= k < j ==> in_(s[k])) && (j == |s| || !in_(s[j]))
    ensures End(s, i, in_) == j
    decreases j - i
  {
    if i < j {
      EndIs(s, i + 1, j, in_);
    }
  }

  lemma {:induction false} EndHolds(s: string, i: nat, in_: char -> bool)
    requires i <= |s|
    ensures forall k :: i <= k < End(s, i, in_) ==> in_(s[k])
    decreases |s| - i
  {
    if i < |s| && in_(s[i]) {
      EndHolds(s, i + 1, in_);
    }
  }

  /** A word ends as well inside a text, if what follows does not continue it. */
  lemma EndMoved(t: string, s: string, p: nat, i: nat, in_: char -> bool)
    requires Starts(s, p, t) && i <= |t| && (p + |t| == |s| || !in_(s[p + |t|]))
    ensures End(s, p + i, in_) == p + End(t, i, in_)
  {
    var j := End(t, i, in_);
    EndHolds(t, i, in_);
    assert forall k :: 0 <= k < |t| ==> s[p + k] == t[k];
    forall k | p + i <= k < p + j
      ensures in_(s[k])
    {
      assert s[k] == t[k - p];
    }
    EndIs(s, p + i, p + j, in_);
  }

  lemma {:induction false} CloseMoved(t: string, s: string, p: nat, i: nat, d: char)
    requires Starts(s, p, t) && 1 <= i <= |t| && d != '\0' && Close(t, i, d, false) == Some(|t| - 1)
    ensures Close(s, p + i, d, false) == Some(p + |t| - 1)
    decreases |t| - i
  {
    assert forall k :: 0 <= k < |t| ==> s[p + k] == t[k];
    if t[i] != d {
      if t[i] == '\\' && At(t, i + 1) == d {
        CloseMoved(t, s, p, i + 2, d);
      } else {
        CloseMoved(t, s, p, i + 1, d);
      }
    }
  }

  /** A blank, or the end of the text. */
  predicate BlankAt(s: string, i: nat) {
    i == |s| || (i < |s| && s[i] == ' ')
  }

  lemma WordRead(s: string, p: nat, t: string)
    requires NoNul(s) && Starts(s, p, t) && BlankAt(s, p + |t|) && IsWord(t)
    ensures ItemAt(s, p) == Plain(Word(t), p, p + |t|)
  {
    assert forall k :: 0 <= k < |t| ==> s[p + k] == t[k];
    EndIs(s, p + 1, p + |t|, IsIdentNum);
    hide Word, End;
  }

  lemma KeywordIsWord(t: string)
    requires t in KEYWORDS
    ensures IsWord(t)
  {
  }

  lemma NumberRead(s: string, p: nat, t: string)
    requires NoNul(s) && Starts(s, p, t) && BlankAt(s, p + |t|) && IsDecimal(t)
    ensures ItemAt(s, p) == Plain(Number, p, p + |t|)
  {
    assert s[p] == t[0];
    DigitsRead(s, p, t);
    DecimalFirst(t);
    hide NumberAt, StringAt, SignAt, Word, IsDecimal;
  }

  lemma DigitsRead(s: string, p: nat, t: string)
    requires Starts(s, p, t) && BlankAt(s, p + |t|) && IsDecimal(t)
    ensures NumberAt(s, p) == Plain(Number, p, p + |t|)
  {
    assert forall k :: 0 <= k < |t| ==> s[p + k] == t[k];
    var n := End(t, 0, IsDigit);
    assert End(t, 1, IsDigit) == n;
    EndMoved(t, s, p, 1, IsDigit);
    if n < |t| {
      EndHolds(t, n + 1, IsDigit);
      EndMoved(t, s, p, n + 1, IsDigit);
    }
    hide End, Based;
  }

  lemma QuotedRead(s: string, p: nat, t: string)
    requires NoNul(s) && Starts(s, p, t) && BlankAt(s, p + |t|) && IsQuoted(t)
    ensures ItemAt(s, p) == Plain(Text, p, p + |t|)
  {
    assert forall k :: 0 <= k < |t| ==> s[p + k] == t[k];
    assert t[1] == t[0] ==> |t| == 2;
    CloseMoved(t, s, p, 1, t[0]);
    hide Close, SignAt, NumberAt, Word, End;
  }

  lemma SignFirst(t: string)
    requires IsSign(t)
    ensures 1 <= |t| <= 3 && !IsIdent(t[0]) && !IsDigit(t[0]) && t[0] !in "\"'\n \t\r?"
    ensures (t[0] == '!' ==> |t| == 2 && t[1] == '=') && ' ' !in t
  {
  }

  lemma SignRead(s: string, p: nat, t: string)
    requires NoNul(s) && Starts(s, p, t) && BlankAt(s, p + |t|) && IsSign(t)
    ensures ItemAt(s, p) == Plain(Sign(t), p, p + |t|)
  {
    SignFirst(t);
    assert s[p] == t[0];
    SignAlone(s, p, t);
    hide SignAt, IsSign;
  }

  /** A sign in front of a blank is the longest one. */
  lemma SignAlone(s: string, p: nat, t: string)
    requires Starts(s, p, t) && BlankAt(s, p + |t|) && IsSign(t)
    ensures SignAt(s, p) == t
  {
    hide IsSign;
    SignFirst(t);
    NotLonger(s, p, t, 2);
    NotLonger(s, p, t, 3);
  }

  lemma NotLonger(s: string, p: nat, t: string, n: nat)
    requires Starts(s, p, t) && BlankAt(s, p + |t|)
    ensures |t| < n && p + n <= |s| ==> !IsSign(s[p..p + n])
  {
    hide IsSign;
    if |t| < n && p + n <= |s| && IsSign(s[p..p + n]) {
      assert s[p..p + n][|t|] == ' ';
      SignFirst(s[p..p + n]);
    }
  }

  lemma SpeltRead(s: string, p: nat, w: Written)
    requires NoNul(s) && Starts(s, p, w.text) && BlankAt(s, p + |w.text|) && Spelt(w)
    ensures p < |s| && ItemAt(s, p) == Plain(w.kind, p, p + |w.text|)
    ensures s[p] !in " \t\r?" && (s[p] == '!' ==> At(s, p + 1) == '=')
  {
    hide ItemAt, IsDecimal, IsQuoted, Close;
    var t := w.text;
    assert forall k :: 0 <= k < |t| ==> s[p + k] == t[k];
    match w.kind
    case Sign(_) => SignFirst(t); SignRead(s, p, t);
    case Keyword(_) => KeywordIsWord(t); WordRead(s, p, t);
    case Name => WordRead(s, p, t);
    case Number => NumberRead(s, p, t); DecimalFirst(t);
    case Text => QuotedRead(s, p, t); QuotedFirst(t);
    case Line => LineRead(s, p);
  }

  lemma DecimalFirst(t: string)
    requires IsDecimal(t)
    ensures t != "" && IsDigit(t[0])
  {
  }

  lemma QuotedFirst(t: string)
    requires IsQuoted(t)
    ensures t != "" && t[0] in "\"'"
  {
  }

  lemma LineRead(s: string, p: nat)
    requires NoNul(s) && p < |s| && s[p] == '\n'
    ensures ItemAt(s, p) == Plain(Line, p, p + 1)
  {
  }

  /** One call of the lexer in front of a blank and a written token. */
  lemma NextRead(s: string, p: nat, w: Written)
    requires NoNul(s) && p < |s| && s[p] == ' ' && Starts(s, p + 1, w.text) && BlankAt(s, p + 1 + |w.text|) && Spelt(w)
    ensures var q := p + 1 + |w.text|;
            Next(s, State(p, false, false)) == Call(Token(w.kind, p + 1, q, LineAt(s, q)), State(q, false, false))
  {
    hide ItemAt, LineAt, Spelt, Skip, Starts;
    SpeltRead(s, p + 1, w);
    SkipOne(s, p);
    KindOfSpelt(w);
  }

  lemma SkipOne(s: string, p: nat)
    requires p + 1 < |s| && s[p] == ' ' && s[p + 1] !in " \t\r?" && (s[p + 1] == '!' ==> At(s, p + 2) == '=')
    ensures Skip(s, p, false) == Skipped(p + 1, false)
  {
    assert Skip(s, p + 1, false) == Skipped(p + 1, false);
  }

  lemma KindOfSpelt(w: Written)
    requires Spelt(w)
    ensures !w.kind.Error? && w.kind != Eof
  {
  }

  /** The token is the written one, and stands in the text. */
  predicate Same(s: string, t: Token, w: Written) {
    t.kind == w.kind && t.from <= t.to <= |s| && s[t.from..t.to] == w.text
  }

  predicate AllSame(s: string, a: seq<Token>, ws: seq<Written>) {
    |a| >= |ws| && forall i :: 0 <= i < |ws| ==> Same(s, a[i], ws[i])
  }

  lemma SameMore(s: string, t: Token, rest: seq<Token>, ws: seq<Written>)
    requires ws != [] && Same(s, t, ws[0]) && AllSame(s, rest, ws[1..])
    ensures AllSame(s, [t] + rest, ws)
  {
    forall i | 0 <= i < |ws|
      ensures Same(s, ([t] + rest)[i], ws[i])
    {
      if i > 0 {
        assert ws[i] == ws[1..][i - 1];
      }
    }
  }

  /** Reading goes on behind what has been read: `p` is where the rest of the text begins. */
  lemma {:induction false} ReadSpaced(s: string, p: nat, ws: seq<Written>)
    requires NoNul(s) && p <= |s| && s[p..] == Spaced(ws) && forall w :: w in ws ==> Spelt(w)
    ensures var a := All(s, State(p, false, false));
            && |a| == |ws| + 2 && AllSame(s, a, ws)
            && a[|ws|] == Token(Line, |s|, |s|, LineAt(s, |s|)) && a[|ws| + 1] == EofAt(s)
    decreases |ws|
  {
    hide Next, LineAt, Spelt, AllSame;
    if ws == [] {
      NoMore(s);
    } else {
      var w, q := ws[0], p + 1 + |ws[0].text|;
      SpacedParts(s, p, ws);
      NextRead(s, p, w);
      assert forall v :: v in ws[1..] ==> v in ws;
      ReadSpaced(s, q, ws[1..]);
      SameMore(s, Token(w.kind, p + 1, q, LineAt(s, q)), All(s, State(q, false, false)), ws);
    }
  }

  lemma SpacedParts(s: string, p: nat, ws: seq<Written>)
    requires p <= |s| && s[p..] == Spaced(ws) && ws != []
    ensures var q := p + 1 + |ws[0].text|;
            p < |s| && s[p] == ' ' && Starts(s, p + 1, ws[0].text) && q <= |s| && BlankAt(s, q) && s[q..] == Spaced(ws[1..])
  {
    var t, rest := ws[0].text, Spaced(ws[1..]);
    SpacedFirst(ws[1..]);
    Parts(s, p, t, rest);
  }

  lemma SpacedFirst(ws: seq<Written>)
    ensures Spaced(ws) == "" || Spaced(ws)[0] == ' '
  {
  }

  lemma Parts(s: string, p: nat, t: string, rest: string)
    requires p <= |s| && s[p..] == " " + t + rest && (rest == "" || rest[0] == ' ')
    ensures var q := p + 1 + |t|;
            p < |s| && s[p] == ' ' && Starts(s, p + 1, t) && q <= |s| && BlankAt(s, q) && s[q..] == rest
  {
    var u, q := s[p..], p + 1 + |t|;
    assert s[p] == u[0];
    assert s[p + 1..q] == u[1..1 + |t|] == t;
    assert s[q..] == u[1 + |t|..] == rest;
    if q < |s| {
      assert s[q] == s[q..][0];
    }
  }

  lemma NoMore(s: string)
    requires NoNul(s)
    ensures var a := All(s, State(|s|, false, false));
            |a| == 2 && a[0] == Token(Line, |s|, |s|, LineAt(s, |s|)) && a[1] == EofAt(s) && AllSame(s, a, [])
  {
    hide LineAt;
    var c := Next(s, State(|s|, false, false));
    assert c.state == State(|s|, false, true);
  }

  lemma {:induction false} SpacedNoNul(ws: seq<Written>)
    requires forall w :: w in ws ==> Spelt(w)
    ensures NoNul(Spaced(ws))
  {
    hide Spelt;
    if ws != [] {
      SpeltNoNul(ws[0]);
      SpacedNoNul(ws[1..]);
    }
  }

  lemma SpeltNoNul(w: Written)
    requires Spelt(w)
    ensures NoNul(w.text)
  {
    hide IsSign, IsDecimal;
    match w.kind
    case Number => DecimalNoNul(w.text);
    case Sign(t) => SignNoNul(t);
    case Keyword(t) => KeywordIsWord(t);
    case _ =>
  }

  lemma SignNoNul(t: string)
    requires IsSign(t)
    ensures NoNul(t)
  {
  }

  lemma DecimalNoNul(t: string)
    requires IsDecimal(t)
    ensures NoNul(t)
  {
    var n := End(t, 0, IsDigit);
    EndHolds(t, 0, IsDigit);
    if n < |t| {
      EndHolds(t, n + 1, IsDigit);
    }
  }

  /**
    Tokens of every kind, written with a blank in front of each, are read back: the same
    kinds, spelt the same, and behind them the newline and the end the lexer adds.
   */
  lemma LexRoundTrip(ws: seq<Written>)
    requires forall w :: w in ws ==> Spelt(w)
    ensures var s := Spaced(ws);
            && NoNul(s)
            && var a := All(s, BEGIN);
               |a| == |ws| + 2 && AllSame(s, a, ws) && a[|ws|].kind == Line && a[|ws| + 1].kind == Eof
  {
    hide Spelt, AllSame, All;
    SpacedNoNul(ws);
    ReadSpaced(Spaced(ws), 0, ws);
  }
}
