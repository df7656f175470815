/**
  What the modes of std/json.c have to do with each other, and what escapes stand for: a
  flag admits more texts and never changes what an admitted text means, and any text can
  be written with escapes alone.
 */
module JsonModes {
  import opened Wrappers
  import opened Utf8
  import opened JsonGrammar
  import opened JsonReader

  /** Whatever `m` allows between values, `w` allows as well. */
  predicate Wider(m: Flags, w: Flags) {
    (m.trailingComma ==> w.trailingComma) && (m.unquotedKeys ==> w.unquotedKeys) &&
    (m.equals ==> w.equals) && (m.noCommas ==> w.noCommas)
  }

  lemma WiderNumber(t: seq<Byte>, m: Flags, w: Flags, i: nat)
    requires Wider(m, w) && i < |t| && (t[i] == 0x2D || IsDigit(t[i])) && ReadNumber(t, m, i).Some?
    ensures ReadNumber(t, w, i) == ReadNumber(t, m, i)
  {
    hide Whole, Fraction, Exponent;
  }

  lemma WiderHead(t: seq<Byte>, m: Flags, w: Flags, i: nat)
    requires Wider(m, w) && i < |t| && !IsBlank(t[i]) && ReadEntry(t, m, i).Some?
    ensures ReadKey(t, m, i).Some? && ReadKey(t, w, i) == ReadKey(t, m, i)
    ensures var k := ReadKey(t, m, i).value.to; ReadColon(t, m, k).Some? && ReadColon(t, w, k) == ReadColon(t, m, k)
  {
    hide ReadValue;
  }

  lemma {:induction false} WiderHere(t: seq<Byte>, m: Flags, w: Flags, i: nat)
    requires Wider(m, w) && i < |t| && ReadHere(t, m, i).Some?
    ensures ReadHere(t, w, i) == ReadHere(t, m, i)
    decreases |t| - i, 0
  {
    HereStep(t, m, i);
    HereStep(t, w, i);
    hide ReadHere, ReadMembers, ReadItems, ReadNumber, ReadWord, ReadString;
    if t[i] == 0x7B {
      WiderMembers(t, m, w, i + 1, false, false);
    } else if t[i] == 0x5B {
      WiderItems(t, m, w, i + 1, false);
    } else if t[i] == 0x2D || IsDigit(t[i]) {
      WiderNumber(t, m, w, i);
    }
  }

  lemma {:induction false} WiderItems(t: seq<Byte>, m: Flags, w: Flags, from: nat, comma: bool)
    requires Wider(m, w) && from <= |t| && ReadItems(t, m, from, comma).Some?
    ensures ReadItems(t, w, from, comma) == ReadItems(t, m, from, comma)
    decreases |t| - from, if comma then 4 else 3
  {
    var i := Skip(t, from);
    ItemsStep(t, m, from, comma);
    ItemsStep(t, w, from, comma);
    hide ReadItems, ReadItem;
    if i < |t| && t[i] != 0x5D {
      if !comma || t[i] != 0x2C {
        WiderItem(t, m, w, i);
      } else if m.trailingComma {
        WiderItems(t, m, w, i + 1, false);
      } else {
        WiderItem(t, m, w, Skip(t, i + 1));
        ItemStart(t, m, Skip(t, i + 1));
        ItemsStep(t, w, i + 1, false);
      }
    }
  }

  lemma {:induction false} WiderItem(t: seq<Byte>, m: Flags, w: Flags, i: nat)
    requires Wider(m, w) && i < |t| && !IsBlank(t[i]) && ReadItem(t, m, i).Some?
    ensures ReadItem(t, w, i) == ReadItem(t, m, i)
    decreases |t| - i, 2
  {
    ItemStep(t, m, i);
    ItemStep(t, w, i);
    ValueStep(t, m, i);
    ValueStep(t, w, i);
    hide ReadItem, ReadItems, ReadHere, ReadValue;
    WiderHere(t, m, w, i);
    WiderItems(t, m, w, ReadHere(t, m, i).value.to, true);
  }

  lemma ItemStart(t: seq<Byte>, m: Flags, i: nat)
    requires i < |t| && !IsBlank(t[i]) && ReadItem(t, m, i).Some?
    ensures t[i] != 0x5D
  {
    if t[i] == 0x5D {
      BracketIsNoValue(t, m, i);
    }
    hide ReadHere, ReadItems;
  }

  lemma {:induction false} WiderMembers(t: seq<Byte>, m: Flags, w: Flags, from: nat, comma: bool, global: bool)
    requires Wider(m, w) && from <= |t| && ReadMembers(t, m, from, comma, global).Some?
    ensures ReadMembers(t, w, from, comma, global) == ReadMembers(t, m, from, comma, global)
    decreases |t| - from, if comma then 4 else 3
  {
    var i := Skip(t, from);
    MembersStep(t, m, from, comma, global);
    MembersStep(t, w, from, comma, global);
    hide ReadMembers, ReadMember;
    if i < |t| && (global || t[i] != 0x7D) {
      if !comma || t[i] != 0x2C {
        WiderMember(t, m, w, i, global);
      } else if m.trailingComma {
        WiderMembers(t, m, w, i + 1, false, global);
      } else {
        WiderMember(t, m, w, Skip(t, i + 1), global);
        MemberStart(t, m, Skip(t, i + 1), global);
        MembersStep(t, w, i + 1, false, global);
      }
    }
  }

  lemma MemberStart(t: seq<Byte>, m: Flags, i: nat, global: bool)
    requires i < |t| && ReadMember(t, m, i, global).Some?
    ensures t[i] != 0x7D
  {
    MemberStep(t, m, i, global);
    EntryStart(t, m, i);
    hide ReadEntry, ReadMembers;
  }

  lemma {:induction false} WiderMember(t: seq<Byte>, m: Flags, w: Flags, i: nat, global: bool)
    requires Wider(m, w) && i < |t| && !IsBlank(t[i]) && ReadMember(t, m, i, global).Some?
    ensures ReadMember(t, w, i, global) == ReadMember(t, m, i, global)
    decreases |t| - i, 2
  {
    MemberStep(t, m, i, global);
    MemberStep(t, w, i, global);
    hide ReadMember, ReadMembers, ReadEntry;
    WiderEntry(t, m, w, i);
    WiderMembers(t, m, w, ReadEntry(t, m, i).value.to, true, global);
  }

  lemma {:induction false} WiderEntry(t: seq<Byte>, m: Flags, w: Flags, i: nat)
    requires Wider(m, w) && i < |t| && !IsBlank(t[i]) && ReadEntry(t, m, i).Some?
    ensures ReadEntry(t, w, i) == ReadEntry(t, m, i)
    decreases |t| - i, 1
  {
    EntryStep(t, m, i);
    EntryStep(t, w, i);
    WiderHead(t, m, w, i);
    hide ReadEntry, ReadKey, ReadColon, ReadValue, ReadHere;
    var k := ReadColon(t, m, ReadKey(t, m, i).value.to).value;
    ValueStep(t, m, k);
    ValueStep(t, w, k);
    WiderHere(t, m, w, Skip(t, k));
  }

  /**
    A text one set of flags reads, a wider set reads the same way, provided both demand
    braces, or neither does, or the text has them.
   */
  lemma WiderText(t: seq<Byte>, m: Flags, w: Flags)
    requires Wider(m, w) && ReadText(t, m).Some?
    requires m.global == w.global || At(t, Skip(t, 0)) == 0x7B
    ensures ReadText(t, w) == ReadText(t, m)
  {
    var i := Skip(t, 0);
    ValueStep(t, m, 0);
    ValueStep(t, w, 0);
    hide ReadValue, ReadHere, ReadMembers;
    if m.global && (i == |t| || t[i] != 0x7B) {
      WiderMembers(t, m, w, i, false, true);
    } else {
      WiderHere(t, m, w, i);
    }
  }

  lemma {:induction false} SkipIsBlank(t: seq<Byte>, i: nat, k: nat)
    requires i <= k < Skip(t, i)
    ensures k < |t| && IsBlank(t[k])
    decreases |t| - i
  {
    if k > i {
      SkipIsBlank(t, i + 1, k);
    }
  }

  /** A bare number or word is followed by no colon. */
  lemma NoColon(t: seq<Byte>, i: nat, to: nat, k: nat)
    requires i <= k <= |t| && i <= to && Skip(t, to) == |t|
    requires forall p :: i <= p < to && p < |t| ==> t[p] != 0x3A && t[p] != 0x3D
    ensures ReadColon(t, MODE_LENIENT, k) == None
  {
    var c := Skip(t, k);
    if to <= c < |t| {
      SkipIsBlank(t, to, c);
    }
  }

  /** Of the texts the strict mode reads, the lenient mode reads the maps, the same way, and no other. */
  lemma LenientReadsMaps(t: seq<Byte>)
    requires ReadText(t, MODE_STRICT).Some?
    ensures if At(t, Skip(t, 0)) == 0x7B then ReadText(t, MODE_LENIENT) == ReadText(t, MODE_STRICT)
            else ReadText(t, MODE_LENIENT) == None
  {
    if At(t, Skip(t, 0)) == 0x7B {
      WiderText(t, MODE_STRICT, MODE_LENIENT);
    } else {
      var i := Skip(t, 0);
      ValueStep(t, MODE_STRICT, 0);
      MembersStep(t, MODE_LENIENT, i, false, true);
      MemberStep(t, MODE_LENIENT, i, true);
      EntryStep(t, MODE_LENIENT, i);
      NoKey(t, i);
      hide ReadValue, ReadHere, ReadMembers, ReadMember, ReadEntry;
    }
  }

  lemma NoKey(t: seq<Byte>, i: nat)
    requires i < |t| && !IsBlank(t[i]) && t[i] != 0x7B
    requires ReadHere(t, MODE_STRICT, i).Some? && Skip(t, ReadHere(t, MODE_STRICT, i).value.to) == |t|
    ensures var key := ReadKey(t, MODE_LENIENT, i);
      key == None || ReadColon(t, MODE_LENIENT, key.value.to) == None
  {
    var m, to := MODE_STRICT, ReadHere(t, MODE_STRICT, i).value.to;
    HereStep(t, m, i);
    hide ReadHere, ReadMembers, ReadItems, ReadString, NumberEnd, ReadWord;
    if t[i] == 0x5B || t[i] == 0x22 {
    } else {
      if t[i] == 0x2D || IsDigit(t[i]) {
        NumberStep(t, m, i);
        NumberText(t, m, i);
      } else {
        WordText(t, i);
      }
      NoColon(t, i, to, IdentEnd(t, i));
    }
  }

  lemma WordText(t: seq<Byte>, i: nat)
    requires ReadWord(t, i).Some?
    ensures forall p :: i <= p < ReadWord(t, i).value.to ==> t[p] != 0x3A && t[p] != 0x3D
  {
    var to := ReadWord(t, i).value.to;
    var w := t[i..to];
    forall p | i <= p < to ensures t[p] != 0x3A && t[p] != 0x3D {
      assert t[p] == w[p - i];
    }
  }

  /* Writing with escapes alone. */

  function HexOf(d: nat): Byte
    requires d < 16
  {
    if d < 10 then 0x30 + d else 0x61 + (d - 10)
  }

  function EscapeUnit(u: nat): seq<Byte>
    requires u < 0x1_0000
  {
    [0x5C, 0x75, HexOf(u / 0x1000), HexOf(u / 0x100 % 16), HexOf(u / 0x10 % 16), HexOf(u % 16)]
  }

  predicate IsScalar(p: nat) {
    p <= MAX_CODE_POINT && !(0xD800 <= p <= 0xDFFF)
  }

  /** One escape, or two for a code point above the sixteen-bit ones, section 7 of RFC 8259. */
  function Escape(p: nat): seq<Byte>
    requires IsScalar(p)
  {
    if p < 0x1_0000 then EscapeUnit(p)
    else EscapeUnit(0xD800 + (p - 0x1_0000) / 0x400) + EscapeUnit(0xDC00 + (p - 0x1_0000) % 0x400)
  }

  function EscapeText(points: seq<nat>): seq<Byte>
    requires forall k :: 0 <= k < |points| ==> IsScalar(points[k])
  {
    if points == [] then [] else Escape(points[0]) + EscapeText(points[1..])
  }

  lemma HexOfDigit(d: nat)
    requires d < 16
    ensures HexDigit(HexOf(d)) == Some(d)
  {
  }

  lemma UnitRead(t: seq<Byte>, i: nat, u: nat)
    requires u < 0x1_0000 && i + 6 <= |t| && t[i..i + 6] == EscapeUnit(u)
    ensures At(t, i) == 0x5C && At(t, i + 1) == 0x75 && Hex4(t, i + 2) == Some(u)
  {
    hide HexOf, HexDigit;
    var e := EscapeUnit(u);
    assert forall k :: 0 <= k < 6 ==> t[i + k] == e[k];
    HexOfDigit(u / 0x1000);
    HexOfDigit(u / 0x100 % 16);
    HexOfDigit(u / 0x10 % 16);
    HexOfDigit(u % 16);
    Sixteens(u);
  }

  /** A number below 65536 is the number its four hexadecimal digits give. */
  lemma Sixteens(u: nat)
    requires u < 0x1_0000
    ensures u == u / 0x1000 * 0x1000 + u / 0x100 % 16 * 0x100 + u / 0x10 % 16 * 0x10 + u % 16
    ensures u / 0x1000 < 16
  {
  }

  lemma CharRead(t: seq<Byte>, i: nat, p: nat)
    requires IsScalar(p) && i + |Escape(p)| < |t| && t[i..i + |Escape(p)|] == Escape(p)
    ensures t[i] == 0x5C && Char(t, i).Some?
    ensures Char(t, i).value.value == Encode(p) && Char(t, i).value.to == i + |Escape(p)|
  {
    CharRules(t, i);
    if p < 0x1_0000 {
      UnitRead(t, i, p);
    } else {
      var high, low := 0xD800 + (p - 0x1_0000) / 0x400, 0xDC00 + (p - 0x1_0000) % 0x400;
      assert t[i..i + 6] == t[i..i + 12][..6] == EscapeUnit(high);
      assert t[i + 6..i + 12] == t[i..i + 12][6..] == EscapeUnit(low);
      UnitRead(t, i, high);
      UnitRead(t, i + 6, low);
      LowRules(t, i + 6, high);
      assert Pair(high, low) == p;
    }
    hide Char, LowHalf, Hex4, Encode, EscapeUnit;
  }

  /** Text written with escapes alone reads back as its encoding. */
  lemma {:induction false} EscapesRead(t: seq<Byte>, i: nat, points: seq<nat>)
    requires forall k :: 0 <= k < |points| ==> IsScalar(points[k])
    requires var n := |EscapeText(points)|; i + n < |t| && t[i..i + n] == EscapeText(points) && t[i + n] == 0x22
    ensures Chars(t, i).Some?
    ensures Chars(t, i).value.value == EncodeAll(points) && Chars(t, i).value.to == i + |EscapeText(points)| + 1
    decreases |points|
  {
    hide Char, Escape, Encode;
    if points == [] {
      CharsEnd(t, i);
    } else {
      var e, rest := Escape(points[0]), EscapeText(points[1..]);
      var all := t[i..i + |e| + |rest|];
      assert t[i..i + |e|] == all[..|e|] == e;
      assert t[i + |e|..i + |e| + |rest|] == all[|e|..] == rest;
      CharRead(t, i, points[0]);
      EscapesRead(t, i + |e|, points[1..]);
      CharsStep(t, i);
    }
  }
}
