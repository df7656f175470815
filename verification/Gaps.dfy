/**
  What stands between tokens: pieces of white space and of comments, in any number. The lexer
  passes over all of them, and over nothing else.
 */
module Gaps {
  import opened Wrappers
  import opened Lexing

  /** White space, a `!` comment with its newline, or a `?` comment with both its marks. */
  predicate IsPiece(t: string) {
    t in {" ", "\t", "\r"} || IsLineComment(t) || IsBlockComment(t)
  }

  predicate IsLineComment(t: string) {
    |t| >= 2 && t[0] == '!' && t[1] != '=' && t[|t| - 1] == '\n' && '\n' !in t[..|t| - 1]
  }

  predicate IsBlockComment(t: string) {
    |t| >= 2 && t[0] == '?' && t[|t| - 1] == '?' && '?' !in t[1..|t| - 1]
  }

  function Joined(ps: seq<string>): string {
    if ps == [] then "" else ps[0] + Joined(ps[1..])
  }

  predicate IsGap(ps: seq<string>) {
    forall i :: 0 <= i < |ps| ==> IsPiece(ps[i])
  }

  /** Neither white space nor a comment begins here. */
  predicate Solid(s: string, j: nat) {
    j == |s| || (j < |s| && s[j] !in " \t\r?" && (s[j] == '!' ==> At(s, j + 1) == '='))
  }

  /** A gap is passed over, and what stands behind it is come to, outside a comment. */
  lemma {:induction false} GapSkipped(s: string, i: nat, ps: seq<string>)
    requires IsGap(ps) && Starts(s, i, Joined(ps)) && Solid(s, i + |Joined(ps)|)
    ensures Skip(s, i, false) == Skipped(i + |Joined(ps)|, false)
    decreases |ps|
  {
    hide IsPiece, Skip;
    if ps != [] {
      var t, rest := ps[0], Joined(ps[1..]);
      assert IsPiece(t);
      assert s[i..i + |t|] == s[i..i + |Joined(ps)|][..|t|];
      assert s[i + |t|..i + |t| + |rest|] == s[i..i + |Joined(ps)|][|t|..];
      PieceSkipped(s, i, t);
      GapSkipped(s, i + |t|, ps[1..]);
    } else {
      SolidStops(s, i);
    }
  }

  lemma SolidStops(s: string, i: nat)
    requires Solid(s, i)
    ensures Skip(s, i, false) == Skipped(i, false)
  {
  }

  lemma PieceSkipped(s: string, i: nat, t: string)
    requires IsPiece(t) && Starts(s, i, t)
    ensures Skip(s, i, false) == Skip(s, i + |t|, false)
  {
    var j := i + |t| - 1;
    assert s[i..i + |t|] == t;
    if IsLineComment(t) {
      forall k | i <= k < j ensures s[k] != '\n' {
        assert s[k] == t[..|t| - 1][k - i];
      }
      LineEnds(s, i + 1, j);
    } else if IsBlockComment(t) {
      forall k | i + 1 <= k < j ensures s[k] != '?' {
        assert s[k] == t[1..|t| - 1][k - i - 1];
      }
      CommentEnds(s, i + 1, j);
    }
  }

  lemma {:induction false} LineEnds(s: string, i: nat, j: nat)
    requires i <= j <= |s| && (forall k :: i <= k < j ==> s[k] != '\n') && (j < |s| ==> s[j] == '\n')
    ensures End(s, i, InLine) == j
    decreases j - i
  {
    if i < j {
      LineEnds(s, i + 1, j);
    }
  }

  lemma {:induction false} CommentEnds(s: string, i: nat, j: nat)
    requires i <= j <= |s| && (forall k :: i <= k < j ==> s[k] != '?') && (j < |s| ==> s[j] == '?')
    ensures Skip(s, i, true) == if j < |s| then Skip(s, j + 1, false) else Skipped(|s|, true)
    decreases j - i
  {
    if i < j {
      CommentEnds(s, i + 1, j);
    }
  }

  /** What is passed over is a gap, but at the end of a text: there, a comment may be open. */
  lemma {:induction false} OnlyGaps(s: string, i: nat) returns (ps: seq<string>, open: string)
    requires i <= |s|
    ensures IsGap(ps) && s[i..Skip(s, i, false).current] == Joined(ps) + open
    ensures Solid(s, Skip(s, i, false).current)
    ensures open != "" ==> Skip(s, i, false).current == |s|
    ensures if Skip(s, i, false).comment then open != "" && open[0] == '?' && '?' !in open[1..]
            else open != "" ==> open[0] == '!' && '\n' !in open
    decreases |s| - i
  {
    hide Skip;
    var r := Skip(s, i, false);
    var j := PieceEnd(s, i);
    if Solid(s, i) {
      SolidStops(s, i);
      ps, open := [], "";
    } else if j.None? {
      LastOpen(s, i);
      ps, open := [], s[i..];
    } else {
      var t := s[i..j.value];
      PieceThere(s, i);
      PieceSkipped(s, i, t);
      var rest;
      rest, open := OnlyGaps(s, j.value);
      ps := [t] + rest;
      assert s[i..r.current] == t + s[j.value..r.current];
    }
  }

  /** Where the piece ends that stands at a position, if it ends. */
  function PieceEnd(s: string, i: nat): (j: Option<nat>)
    requires i <= |s|
    ensures j.Some? ==> i < j.value <= |s|
  {
    if i == |s| then None
    else if s[i] == '?' then
      var k := End(s, i + 1, (c: char) => c != '?'); if k < |s| then Some(k + 1) else None
    else if s[i] == '!' then
      var k := End(s, i + 1, InLine); if k < |s| then Some(k + 1) else None
    else Some(i + 1)
  }

  lemma {:induction false} EndPasses(s: string, i: nat, in_: char -> bool)
    requires i <= |s|
    ensures forall k :: i <= k < End(s, i, in_) ==> in_(s[k])
    decreases |s| - i
  {
    if i < |s| && in_(s[i]) {
      EndPasses(s, i + 1, in_);
    }
  }

  lemma PieceThere(s: string, i: nat)
    requires i <= |s| && !Solid(s, i) && PieceEnd(s, i).Some?
    ensures IsPiece(s[i..PieceEnd(s, i).value])
  {
    EndPasses(s, i + 1, (c: char) => c != '?');
    EndPasses(s, i + 1, InLine);
    hide End;
    var t := s[i..PieceEnd(s, i).value];
    assert |t| == 1 ==> t == [s[i]];
  }

  lemma LastOpen(s: string, i: nat)
    requires i <= |s| && !Solid(s, i) && PieceEnd(s, i).None?
    ensures var r := Skip(s, i, false);
      r.current == |s| && i < |s| &&
      if r.comment then s[i] == '?' && '?' !in s[i + 1..] else s[i] == '!' && '\n' !in s[i..]
  {
    EndPasses(s, i + 1, (c: char) => c != '?');
    EndPasses(s, i + 1, InLine);
    if s[i] == '?' {
      hide Skip;
      CommentEnds(s, i + 1, |s|);
      OpensComment(s, i);
    }
  }

  lemma OpensComment(s: string, i: nat)
    requires i < |s| && s[i] == '?'
    ensures Skip(s, i, false) == Skip(s, i + 1, true)
  {
  }
}
