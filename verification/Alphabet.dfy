/**
  The characters of the lexer, listed one by one, and the numbers with a base prefix.
 */
module Alphabet {
  import opened Wrappers
  import opened Lexing
  import opened Scanner
  import opened WholeText

  const DECIMAL: set<char> := {'0', '1', '2', '3', '4', '5', '6', '7', '8', '9'}
  const OCTAL: set<char> := {'0', '1', '2', '3', '4', '5', '6', '7'}
  const BINARY: set<char> := {'0', '1'}
  const HEXADECIMAL: set<char> := DECIMAL + {'a', 'b', 'c', 'd', 'e', 'f', 'A', 'B', 'C', 'D', 'E', 'F'}
  const SMALL: set<char> := {
    'a', 'b', 'c', 'd', 'e', 'f', 'g', 'h', 'i', 'j', 'k', 'l', 'm', 'n', 'o', 'p', 'q', 'r', 's', 't', 'u', 'v', 'w', 'x', 'y', 'z'}
  const CAPITAL: set<char> := {
    'A', 'B', 'C', 'D', 'E', 'F', 'G', 'H', 'I', 'J', 'K', 'L', 'M', 'N', 'O', 'P', 'Q', 'R', 'S', 'T', 'U', 'V', 'W', 'X', 'Y', 'Z'}

  /** The classes of characters are these, and no others belong to them. */
  lemma Classes(c: char)
    ensures IsDigit(c) <==> c in DECIMAL
    ensures IsOct(c) <==> c in OCTAL
    ensures IsBin(c) <==> c in BINARY
    ensures IsHex(c) <==> c in HEXADECIMAL
    ensures IsIdent(c) <==> c in SMALL + CAPITAL + {'_'}
    ensures IsIdentNum(c) <==> c in SMALL + CAPITAL + DECIMAL + {'_'}
  {
    Letters(c);
  }

  lemma Letters(c: char)
    ensures 'a' <= c <= 'z' <==> c in SMALL
    ensures 'A' <= c <= 'Z' <==> c in CAPITAL
  {
  }

  /** The digits that may stand behind a base prefix. */
  function DigitsOf(prefix: char): set<char> {
    if prefix in {'x', 'X'} then HEXADECIMAL
    else if prefix in {'o', 'O'} then OCTAL
    else if prefix in {'b', 'B'} then BINARY
    else {}
  }

  /** A number with a base prefix, up to a blank or the end of the text, is one token. */
  lemma BasedRead(s: string, p: nat, t: string)
    requires NoNul(s) && Starts(s, p, t) && BlankAt(s, p + |t|)
    requires |t| > 2 && t[0] == '0' && forall k :: 2 <= k < |t| ==> t[k] in DigitsOf(t[1])
    ensures ItemAt(s, p) == Plain(Number, p, p + |t|)
  {
    hide IsHex, IsOct, IsBin, DigitsOf;
    assert s[p] == t[0] && s[p + 1] == t[1];
    PrefixIs(t[1], t[2]);
    forall k | p + 2 <= k < p + |t| ensures ClassOf(t[1])(s[k]) {
      assert s[p + (k - p)] == t[k - p];
      ClassIs(t[1], s[k]);
    }
    BlankIsNone(s, p + |t|, t[1]);
    NumberIs(s, p, p + |t|);
  }

  function ClassOf(prefix: char): char -> bool {
    if prefix in {'x', 'X'} then IsHex else if prefix in {'o', 'O'} then IsOct else IsBin
  }

  lemma PrefixIs(prefix: char, c: char)
    requires c in DigitsOf(prefix)
    ensures prefix in {'x', 'X', 'o', 'O', 'b', 'B'}
  {
  }

  lemma ClassIs(prefix: char, c: char)
    requires prefix in {'x', 'X', 'o', 'O', 'b', 'B'}
    ensures ClassOf(prefix)(c) <==> c in DigitsOf(prefix)
  {
    Classes(c);
  }

  lemma BlankIsNone(s: string, i: nat, prefix: char)
    requires BlankAt(s, i)
    ensures i < |s| ==> !ClassOf(prefix)(s[i])
    ensures At(s, i) != '.'
  {
  }

  lemma BasedEnd(s: string, i: nat, j: nat, in_: char -> bool, none: string, dot: string)
    requires i + 2 < j <= |s| && (forall k :: i + 2 <= k < j ==> in_(s[k])) && (j < |s| ==> !in_(s[j])) && At(s, j) != '.'
    ensures Based(s, i, in_, none, dot) == Plain(Number, i, j)
  {
    EndIs(s, i + 2, j, in_);
    hide End;
  }

  lemma NumberIs(s: string, i: nat, j: nat)
    requires NoNul(s) && i + 2 < j <= |s| && s[i] == '0' && s[i + 1] in {'x', 'X', 'o', 'O', 'b', 'B'}
    requires (forall k :: i + 2 <= k < j ==> ClassOf(s[i + 1])(s[k])) && (j < |s| ==> !ClassOf(s[i + 1])(s[j])) && At(s, j) != '.'
    ensures ItemAt(s, i) == Plain(Number, i, j)
  {
    BasedEnd(s, i, j, ClassOf(s[i + 1]), "Unterminated hexadecimal literal.", "Invalid dot after hexadecimal literal.");
    BasedEnd(s, i, j, ClassOf(s[i + 1]), "Unterminated octal literal.", "Invalid dot after octal literal.");
    BasedEnd(s, i, j, ClassOf(s[i + 1]), "Unterminated binary literal.", "Invalid dot after binary literal.");
    hide End, StringAt, SignAt, Word, Based;
  }
}
