/**
  Where string literals end. The lexer takes a delimiter behind a backslash for an escaped
  one, also where the backslash is itself escaped; the compiler, which decodes the literal,
  does not.
 */
module StringEnds {
  import opened Wrappers
  import opened Lexing
  import opened Scanner

  /** The end of a literal whose escapes are read one after another, as the compiler reads them. */
  function Intended(s: string, i: nat, delimiter: char): (r: Option<nat>)
    requires i <= |s|
    ensures r.Some? ==> i <= r.value < |s| && s[r.value] == delimiter
    decreases |s| - i
  {
    if i == |s| then None
    else if s[i] == delimiter then Some(i)
    else if s[i] == '\\' && i + 1 < |s| then Intended(s, i + 2, delimiter)
    else Intended(s, i + 1, delimiter)
  }

  /** Every delimiter on a stretch stands behind a backslash of the stretch. */
  predicate AllBehind(s: string, i: nat, j: nat, delimiter: char)
    requires i <= j <= |s|
  {
    forall k :: i <= k < j && s[k] == delimiter ==> k > i && s[k - 1] == '\\'
  }

  lemma {:induction false} IntendedBehind(s: string, i: nat, delimiter: char)
    requires i <= |s| && delimiter != '\\' && Intended(s, i, delimiter).Some?
    ensures AllBehind(s, i, Intended(s, i, delimiter).value, delimiter)
    decreases |s| - i
  {
    if s[i] != delimiter {
      if s[i] == '\\' && i + 1 < |s| {
        IntendedBehind(s, i + 2, delimiter);
      } else {
        IntendedBehind(s, i + 1, delimiter);
      }
    }
  }

  /** The lexer ends a literal at the first delimiter that is not behind a backslash. */
  lemma {:induction false} CloseIs(s: string, i: nat, j: nat, delimiter: char)
    requires i <= j < |s| && delimiter != '\\' && delimiter != '\0' && s[j] == delimiter && AllBehind(s, i, j, delimiter)
    ensures Close(s, i, delimiter, false) == Some(j) <==> j == i || s[j - 1] != '\\'
    decreases |s| - i
  {
    if i < j {
      if s[i] == '\\' && s[i + 1] == delimiter {
        if i + 1 < j {
          Restarted(s, i, j, delimiter);
          CloseIs(s, i + 2, j, delimiter);
        }
      } else {
        CloseIs(s, i + 1, j, delimiter);
      }
    }
  }

  /** Behind an escaped delimiter no other one can follow at once. */
  lemma Restarted(s: string, i: nat, j: nat, delimiter: char)
    requires i + 2 <= j < |s| && delimiter != '\\' && AllBehind(s, i, j, delimiter) && s[j] == delimiter
    requires s[i] == '\\' && s[i + 1] == delimiter
    ensures AllBehind(s, i + 2, j, delimiter) && (j == i + 2 ==> s[j - 1] != '\\')
  {
  }

  /** The lexer ends a literal where the compiler would if and only if no backslash stands in front of that end. */
  lemma EndsAsIntended(s: string, i: nat, delimiter: char)
    requires i <= |s| && delimiter != '\\' && delimiter != '\0' && Intended(s, i, delimiter).Some?
    ensures var j := Intended(s, i, delimiter).value;
      Close(s, i, delimiter, false) == Some(j) <==> j == i || s[j - 1] != '\\'
  {
    var j := Intended(s, i, delimiter).value;
    IntendedBehind(s, i, delimiter);
    CloseIs(s, i, j, delimiter);
  }

  /** A literal of one escaped backslash is not terminated. */
  lemma BackslashUnterminated()
    ensures Intended("\"\\\\\"", 1, '"') == Some(3)
    ensures ItemAt("\"\\\\\"", 0) == Bad("Unterminated string.", 4)
  {
    var s := "\"\\\\\"";
    assert Intended(s, 3, '"') == Some(3);
    EndsAsIntended(s, 1, '"');
    assert Close(s, 4, '"', false) == None;
    assert Close(s, 2, '"', false) == None;
    assert Close(s, 1, '"', false) == None;
  }

  /** A text in triple delimiters, in which no delimiter stands and which no backslash ends. */
  predicate IsWide(t: string) {
    |t| >= 6 && (t[0] == '"' || t[0] == '\'') && t[1] == t[2] == t[0] &&
    (forall k :: 3 <= k < |t| - 3 ==> t[k] != t[0]) && t[|t| - 3] == t[|t| - 2] == t[|t| - 1] == t[0] && (|t| == 6 || t[|t| - 4] != '\\')
  }

  /** Its token is what stands between, with one delimiter on each side, and the lexer goes on behind all of it. */
  lemma WideRead(s: string, p: nat, t: string)
    requires NoNul(s) && Starts(s, p, t) && IsWide(t)
    ensures ItemAt(s, p) == Item(Text, p + 2, p + |t| - 2, p + |t|)
    ensures s[p + 2..p + |t| - 2] == [t[0]] + t[3..|t| - 3] + [t[0]]
  {
    WideAt(s, p, t);
    hide IsWide;
    WideClose(s, p + 3, p + |t| - 3, t[0]);
    hide Close, SignAt, NumberAt, Word, End;
    WideSlice(s, p, t);
  }

  lemma WideAt(s: string, p: nat, t: string)
    requires Starts(s, p, t) && IsWide(t)
    ensures |t| >= 6 && p + |t| <= |s| && (t[0] == '"' || t[0] == '\'') && s[p] == s[p + 1] == s[p + 2] == t[0]
    ensures (forall k :: p + 3 <= k < p + |t| - 3 ==> s[k] != t[0]) && (|t| > 6 ==> s[p + |t| - 4] != '\\')
    ensures s[p + |t| - 3] == s[p + |t| - 2] == s[p + |t| - 1] == t[0]
  {
    forall k | 0 <= k < |t| ensures s[p + k] == t[k] {
      assert s[p..p + |t|][k] == t[k];
    }
    forall k | p + 3 <= k < p + |t| - 3 ensures s[k] != t[0] {
      assert s[p + (k - p)] == t[k - p];
    }
  }

  lemma WideSlice(s: string, p: nat, t: string)
    requires Starts(s, p, t) && |t| >= 6 && s[p + 2] == t[0] && s[p + |t| - 3] == t[0]
    ensures s[p + 2..p + |t| - 2] == [t[0]] + t[3..|t| - 3] + [t[0]]
  {
    forall k | 0 <= k < |t| ensures s[p + k] == t[k] {
      assert s[p..p + |t|][k] == t[k];
    }
  }

  lemma {:induction false} WideClose(s: string, i: nat, j: nat, delimiter: char)
    requires i <= j && j + 3 <= |s| && delimiter != '\\' && delimiter != '\0'
    requires (forall k :: i <= k < j ==> s[k] != delimiter) && s[j] == s[j + 1] == s[j + 2] == delimiter
    requires i < j ==> s[j - 1] != '\\'
    ensures Close(s, i, delimiter, true) == Some(j)
    decreases j - i
  {
    if i < j {
      WideClose(s, i + 1, j, delimiter);
    }
  }
}
