/**
  Reversing a string in place, src/jml_core.c: the bytes are swapped end for end, then
  a second pass walks backwards and turns the bytes of each longer character round again.
 */
module Reverse {
  import opened Wrappers
  import opened Utf8

  function Reversed<T>(s: seq<T>): (r: seq<T>)
    ensures |r| == |s|
  {
    if s == [] then [] else Reversed(s[1..]) + [s[0]]
  }

  lemma {:induction false} ReversedAt<T>(s: seq<T>, k: nat)
    requires k < |s|
    ensures Reversed(s)[k] == s[|s| - 1 - k]
  {
    if k < |s| - 1 {
      ReversedAt(s[1..], k);
    }
  }

  lemma {:induction false} ReversedAppend<T>(a: seq<T>, b: seq<T>)
    ensures Reversed(a + b) == Reversed(b) + Reversed(a)
  {
    if a == [] {
      assert a + b == b;
    } else {
      ReversedAppend(a[1..], b);
      assert (a + b)[1..] == a[1..] + b;
    }
  }

  /** The first loop. */
  method SwapBytes(str: array<Byte>, length: nat)
    requires length <= str.Length
    modifies str
    ensures str[..length] == Reversed(old(str[..length]))
  {
    ghost var was := str[..length];
    var i := 0;
    while i < length / 2
      invariant 0 <= i <= length / 2
      invariant forall k :: 0 <= k < i ==> str[k] == was[length - 1 - k] && str[length - 1 - k] == was[k]
      invariant forall k :: i <= k < length - i ==> str[k] == was[k]
    {
      var temp := str[i];
      str[i] := str[length - 1 - i];
      str[length - 1 - i] := temp;
      i := i + 1;
    }
    forall k | 0 <= k < length ensures str[..length][k] == Reversed(was)[k] {
      ReversedAt(was, k);
    }
  }

  /** `strlen`, for a text that a NUL follows. */
  function Strlen(text: seq<Byte>): (n: nat)
    ensures n <= |text| && (forall i :: 0 <= i < n ==> text[i] != 0) && (n < |text| ==> text[n] == 0)
  {
    if text == [] || text[0] == 0 then 0 else 1 + Strlen(text[1..])
  }

  /** `jml_strdup`: a copy up to and with the first NUL. */
  method Duplicate(text: seq<Byte>) returns (str: array<Byte>)
    ensures fresh(str) && str.Length == Strlen(text) + 1 && str[..Strlen(text)] == text[..Strlen(text)]
    ensures str[Strlen(text)] == 0
  {
    var n := Strlen(text);
    str := new Byte[n + 1](i => 0);
    forall i | 0 <= i < n {
      str[i] := text[i];
    }
  }

  /** A NUL that is not the last byte of the text. */
  predicate NulInside(text: seq<Byte>) {
    Strlen(text) + 1 < |text|
  }

  lemma NulInsideIs(text: seq<Byte>)
    ensures NulInside(text) <==> exists i :: 0 <= i < |text| - 1 && text[i] == 0
  {
    if NulInside(text) {
      assert text[Strlen(text)] == 0;
    }
  }

  /** The text while the repair has `points[..k]` behind it. */
  ghost predicate Repaired(str: seq<Byte>, end: int, points: seq<nat>, k: nat)
  {
    k <= |points| && end == |EncodeAll(points[k..])| &&
    str == Reversed(EncodeAll(points[k..])) + EncodeAll(Reversed(points[..k]))
  }

  lemma RestOf(points: seq<nat>, k: nat)
    requires k < |points|
    ensures var e, rest := Encode(points[k]), EncodeAll(points[k + 1..]);
      EncodeAll(points[k..]) == e + rest &&
      Reversed(EncodeAll(points[k..])) == Reversed(rest) + Reversed(e) && Reversed(Reversed(e)) == e
  {
    hide Encode;
    assert points[k..][1..] == points[k + 1..];
    ReversedAppend(Encode(points[k]), EncodeAll(points[k + 1..]));
    ReversedTwice(Encode(points[k]));
  }

  lemma DoneOf(points: seq<nat>, k: nat)
    requires k < |points|
    ensures EncodeAll(Reversed(points[..k + 1])) == Encode(points[k]) + EncodeAll(Reversed(points[..k]))
  {
    hide Encode;
    assert points[..k + 1] == points[..k] + [points[k]];
    ReversedAppend(points[..k], [points[k]]);
    assert Reversed([points[k]]) == [points[k]];
    var done := Reversed(points[..k]);
    assert ([points[k]] + done)[1..] == done;
  }

  /** One repair step: the character that ends before `end` has been turned round. */
  lemma RepairStep(str: seq<Byte>, str': seq<Byte>, end: int, points: seq<nat>, k: nat)
    requires Repaired(str, end, points, k) && k < |points|
    requires var n := |Encode(points[k])|;
      n <= end && |str'| == |str| &&
      str' == str[..end - n] + Reversed(str[end - n..end]) + str[end..]
    ensures Repaired(str', end - |Encode(points[k])|, points, k + 1)
  {
    RestOf(points, k);
    DoneOf(points, k);
    hide Encode, Reversed, EncodeAll;
    var rest, e, c := EncodeAll(points[k + 1..]), Encode(points[k]), EncodeAll(Reversed(points[..k]));
    Turned(Reversed(rest), e, Reversed(e), c, str, str', end);
  }

  lemma Turned(a: seq<Byte>, e: seq<Byte>, b: seq<Byte>, c: seq<Byte>, str: seq<Byte>, str': seq<Byte>, end: int)
    requires str == a + b + c && end == |a| + |b| && Reversed(b) == e
    requires str' == str[..|a|] + Reversed(str[|a|..end]) + str[end..]
    ensures str' == a + (e + c)
  {
    hide Reversed;
    Slices(a, b, c);
    assert str' == a + e + c;
  }

  lemma Slices(a: seq<Byte>, b: seq<Byte>, c: seq<Byte>)
    ensures (a + b + c)[..|a|] == a
    ensures (a + b + c)[|a|..|a| + |b|] == b
    ensures (a + b + c)[|a| + |b|..] == c
  {
  }

  lemma ReversedTwice<T>(s: seq<T>)
    ensures Reversed(Reversed(s)) == s
  {
    forall k | 0 <= k < |s| ensures Reversed(Reversed(s))[k] == s[k] {
      ReversedAt(Reversed(s), k);
      ReversedAt(s, |s| - 1 - k);
    }
  }

  /** How many bytes the repair takes a character to have, by its first byte. */
  function Span(first: Byte): (n: nat)
    ensures 1 <= n <= 4
  {
    var h := first / 16;
    if h == 15 then 4 else if h == 14 then 3 else if h == 12 || h == 13 then 2 else 1
  }

  /** The byte before `end` is the first of the character to repair, and says how long it is. */
  lemma LastIsFirst(str: seq<Byte>, end: int, points: seq<nat>, k: nat)
    requires Holdable(points) && Repaired(str, end, points, k) && end > 0
    ensures k < |points| && end <= |str|
    ensures var n := |Encode(points[k])|;
      1 <= n <= end && n == Span(str[end - 1])
    ensures end == |Encode(points[k])| <==> k == |points| - 1
    ensures |Encode(points[k])| <= 2 <==> points[k] <= 0x7FF
  {
    assert points[k..] != [];
    var e, rest := Encode(points[k]), EncodeAll(points[k + 1..]);
    assert points[k..][1..] == points[k + 1..];
    EncodeTable(points[k]);
    hide Encode;
    ReversedAt(e + rest, end - 1);
    assert str[end - 1] == e[0];
    if k + 1 < |points| {
      assert points[k + 1..] != [];
      FirstByte(points[k + 1]);
    }
  }

  lemma TurnedRound(was: seq<Byte>, now: seq<Byte>, first: nat, stop: nat)
    requires |now| == |was| && first < stop <= |was| && stop - first <= 4
    requires forall k :: 0 <= k < first || stop <= k < |was| ==> now[k] == was[k]
    requires forall k :: first <= k < stop ==> now[k] == was[first + stop - 1 - k]
    ensures now == was[..first] + Reversed(was[first..stop]) + was[stop..]
  {
    var w := was[first..stop];
    forall k | 0 <= k < |w| ensures now[first + k] == Reversed(w)[k] {
      ReversedAt(w, k);
      assert w[|w| - 1 - k] == was[first + stop - 1 - (first + k)];
    }
    assert now[..first] == was[..first];
    assert now[first..stop] == Reversed(w);
    assert now[stop..] == was[stop..];
    assert now == now[..first] + now[first..stop] + now[stop..];
  }

  method Exchange(str: array<Byte>, i: nat, j: nat)
    requires i < j < str.Length
    modifies str
    ensures str[..] == old(str[..])[i := old(str[j])][j := old(str[i])]
  {
    var temp := str[i];
    str[i] := str[j];
    str[j] := temp;
  }

  /** The bytes of a character of that length are turned round by two swaps or one. */
  method Turn(str: array<Byte>, end: nat, n: nat)
    requires 1 <= n <= 4 && n <= end + 1 <= str.Length
    modifies str
    ensures forall k :: 0 <= k < end + 1 - n || end < k < str.Length ==> str[k] == old(str[k])
    ensures forall k :: end + 1 - n <= k <= end ==> str[k] == old(str[end + 1 - n + end - k])
  {
    if n == 4 {
      Exchange(str, end - 3, end);
      Exchange(str, end - 2, end - 1);
    } else if n == 3 {
      Exchange(str, end - 2, end);
    } else if n == 2 {
      Exchange(str, end - 1, end);
    }
  }

  /**
    One turn of the second loop: the bytes that end at `end` are turned round. It fails
    for a character of three or four bytes that starts the text, or reaches before it.
   */
  method TurnRound(str: array<Byte>, end: nat, length: nat) returns (start: Option<nat>)
    requires 0 < end < length <= str.Length
    modifies str
    ensures var n := Span(old(str[end]));
      if n > 2 && end < n then start == None
      else
        start == Some(end + 1 - n) &&
        str[..length] ==
          old(str[..length])[..end + 1 - n] + Reversed(old(str[..length])[end + 1 - n..end + 1]) + old(str[..length])[end + 1..]
  {
    hide Reversed;
    ghost var was := str[..length];
    var h := str[end] / 16;
    var n := 1;
    if h == 15 {
      if end < 4 {
        return None;
      }
      n := 4;
    } else if h == 14 {
      if end < 3 {
        return None;
      }
      n := 3;
    } else if h == 12 || h == 13 {
      n := 2;
    }
    Turn(str, end, n);
    TurnedRound(was, str[..length], end + 1 - n, end + 1);
    return Some(end + 1 - n);
  }

  lemma RepairStart(points: seq<nat>)
    ensures Repaired(Reversed(EncodeAll(points)), |EncodeAll(points)|, points, 0)
  {
    assert points[0..] == points && points[..0] == [];
    assert EncodeAll(Reversed(points[..0])) == [];
  }

  lemma AllRepaired(str: seq<Byte>, points: seq<nat>, k: nat)
    requires Holdable(points) && Repaired(str, 0, points, k)
    ensures k == |points| && str == EncodeAll(Reversed(points))
  {
    hide Encode;
    if k < |points| {
      FirstByte(points[k]);
    }
    assert points[..k] == points;
  }

  lemma {:induction false} EncodedHasNoNul(points: seq<nat>)
    requires Holdable(points)
    ensures Strlen(EncodeAll(points)) == |EncodeAll(points)|
  {
    hide Encode;
    if points != [] {
      EncodedHasNoNul(points[1..]);
      FirstByte(points[0]);
      NoNulBoth(Encode(points[0]), EncodeAll(points[1..])) by {
        NoNulIn(points[0]);
      }
    }
  }

  lemma NoNulIn(v: nat)
    requires Holdable([v])
    ensures Strlen(Encode(v)) == |Encode(v)|
  {
    EncodeTable(v);
  }

  lemma NoNulBoth(a: seq<Byte>, b: seq<Byte>)
    requires Strlen(a) == |a| && Strlen(b) == |b|
    ensures Strlen(a + b) == |a + b|
  {
    assert forall k :: 0 <= k < |a + b| ==> (a + b)[k] != 0;
  }

  /** `Overrun` when a byte behind the copy is swapped. */
  datatype Reversal = Done(text: seq<Byte>) | Failure | Overrun

  /**
    The string branch of `jml_core_reverse`, on a copy of the text. It stays inside the copy
    exactly if no NUL stands in front of the last byte. On an encoded text it fails exactly
    when the last character takes more than two bytes, because the repair asks for one byte
    more than the character has; else it gives the encoding of the characters in reverse.
   */
  method Reverse(text: seq<Byte>, ghost points: seq<nat>) returns (r: Reversal)
    ensures r == Overrun <==> NulInside(text)
    ensures r.Done? ==> |r.text| == |text|
    ensures Holdable(points) && text == EncodeAll(points) ==>
      r == if points != [] && points[|points| - 1] > 0x7FF then Failure else Done(EncodeAll(Reversed(points)))
  {
    hide Encode, EncodeAll, Reversed, Repaired, Holdable, Span;
    ghost var ok := Holdable(points) && text == EncodeAll(points);
    if ok {
      EncodedHasNoNul(points);
      RepairStart(points);
    }
    var length := |text|;
    var str := Duplicate(text);
    if length / 2 > 0 && length - 1 >= str.Length {
      return Overrun;
    }
    assert str[..length] == text;
    SwapBytes(str, length);
    ghost var k := 0;
    var end := length;
    end := end - 1;
    while 0 < end
      invariant -1 <= end < length <= str.Length
      invariant ok ==> Repaired(str[..length], end + 1, points, k)
      invariant ok && k == |points| > 0 ==> points[k - 1] <= 0x7FF
      decreases end
    {
      ghost var was := str[..length];
      ghost var stop := end + 1;
      if ok {
        LastIsFirst(was, end + 1, points, k);
      }
      var start := TurnRound(str, end, length);
      if start == None {
        return Failure;
      }
      end := start.value;
      if ok {
        RepairStep(was, str[..length], stop, points, k);
        k := k + 1;
      }
      end := end - 1;
    }
    if ok && end == 0 {
      LastByte(str[..length], points, k);
      k := k + 1;
    }
    if ok {
      AllRepaired(str[..length], points, k);
    }
    r := Done(str[..length]);
  }

  /** A character that is one byte needs no repair. */
  lemma LastByte(str: seq<Byte>, points: seq<nat>, k: nat)
    requires Holdable(points) && Repaired(str, 1, points, k)
    ensures k < |points| && points[k] <= 0x7FF && Repaired(str, 0, points, k + 1)
  {
    hide Encode, EncodeAll, Reversed, Repaired, Span;
    LastIsFirst(str, 1, points, k);
    TurnedRound(str, str, 0, 1);
    RepairStep(str, str, 1, points, k);
  }
}
