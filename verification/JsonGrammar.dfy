/**
  The texts std/json.c accepts, as a grammar that says where every value starts and ends,
  what it stands for and how many buffer bytes are set aside for it. Strings and escapes
  follow section 7 of RFC 8259, except that control characters other than NUL, tab,
  carriage return and line feed may stand unescaped.
 */
module JsonGrammar {
  import opened Wrappers
  import opened Utf8

  /** The five bits the strict and the lenient mode differ in. */
  datatype Flags = Flags(trailingComma: bool, unquotedKeys: bool, global: bool, equals: bool, noCommas: bool)

  const MODE_STRICT := Flags(false, false, false, false, false)
  const MODE_LENIENT := Flags(true, true, true, true, true)

  /** A value with the span of the text it was read from. */
  datatype Value = Value(from: nat, to: nat, data: Data)

  /** The digits of a number are what is handed to `strtod`; the members of a map are set in order. */
  datatype Data =
    | Text(chars: seq<Byte>)
    | Number(digits: seq<Byte>)
    | Truth(value: bool)
    | Nothing
    | Array(items: seq<Value>)
    | Map(members: seq<Member>)

  datatype Member = Member(key: seq<Byte>, value: Value)

  /** What was read, where it ends, and the buffer bytes it may take. */
  datatype Read<+T> = Read(value: T, to: nat, room: nat)

  /** The byte at a position; the text is followed by its terminator. */
  function At(t: seq<Byte>, i: nat): Byte {
    if i < |t| then t[i] else 0
  }

  predicate IsBlank(b: Byte) {
    b == 0x20 || b == 0x0D || b == 0x09 || b == 0x0A
  }

  predicate IsDigit(b: Byte) {
    0x30 <= b <= 0x39
  }

  predicate IsIdent(b: Byte) {
    0x61 <= b <= 0x7A || 0x41 <= b <= 0x5A || b == 0x5F || IsDigit(b)
  }

  /** The first position at or after `i` that is not blank. */
  function Skip(t: seq<Byte>, i: nat): (j: nat)
    ensures i <= j && (i <= |t| ==> j <= |t|) && !IsBlank(At(t, j))
    ensures i >= |t| || !IsBlank(t[i]) ==> j == i
    decreases |t| - i
  {
    if i < |t| && IsBlank(t[i]) then Skip(t, i + 1) else i
  }

  /* Strings. */

  function HexDigit(c: Byte): (r: Option<nat>)
    ensures r.Some? ==> r.value < 16
  {
    if 0x30 <= c <= 0x39 then Some(c - 0x30)
    else if 0x61 <= c <= 0x66 then Some(c - 0x61 + 10)
    else if 0x41 <= c <= 0x46 then Some(c - 0x41 + 10)
    else None
  }

  /** The value of the four hexadecimal digits at `i`. */
  function Hex4(t: seq<Byte>, i: nat): (r: Option<nat>)
    ensures r.Some? ==> r.value < 0x1_0000
  {
    var a, b, c, d := HexDigit(At(t, i)), HexDigit(At(t, i + 1)), HexDigit(At(t, i + 2)), HexDigit(At(t, i + 3));
    if a == None || b == None || c == None || d == None then None
    else Some(((a.value * 16 + b.value) * 16 + c.value) * 16 + d.value)
  }

  predicate IsHigh(c: nat) {
    0xD800 <= c <= 0xDBFF
  }

  predicate IsLow(c: nat) {
    0xDC00 <= c <= 0xDFFF
  }

  /** The code point a surrogate pair stands for. */
  function Pair(high: nat, low: nat): nat
    requires IsHigh(high) && IsLow(low)
  {
    0x1_0000 + (high - 0xD800) * 0x400 + (low - 0xDC00)
  }

  /** What the letter after a backslash stands for. */
  function Letter(b: Byte): Option<Byte> {
    if b == 0x22 || b == 0x5C || b == 0x2F then Some(b)
    else if b == 0x62 then Some(0x08)
    else if b == 0x66 then Some(0x0C)
    else if b == 0x6E then Some(0x0A)
    else if b == 0x72 then Some(0x0D)
    else if b == 0x74 then Some(0x09)
    else None
  }

  /** One character of a string: its bytes, where the next one starts, the bytes set aside. */
  function Char(t: seq<Byte>, i: nat): (r: Option<Read<seq<Byte>>>)
    requires i < |t|
    ensures r.Some? ==> i < r.value.to <= |t| && |r.value.value| <= r.value.room
  {
    var b := t[i];
    if b != 0x5C then
      (if b == 0x00 || b == 0x09 || b == 0x0A || b == 0x0D then None else Some(Read([b], i + 1, 1)))
    else if Letter(At(t, i + 1)).Some? then Some(Read([Letter(At(t, i + 1)).value], i + 2, 1))
    else if At(t, i + 1) != 0x75 || i + 6 >= |t| then None
    else
      var code := Hex4(t, i + 2);
      if code == None then None
      else if IsHigh(code.value) then LowHalf(t, i + 6, code.value)
      else if IsLow(code.value) then None
      else Unit(code.value, i + 6)
  }

  function Unit(code: nat, to: nat): Option<Read<seq<Byte>>>
    requires code < 0x1_0000
  {
    EncodeTable(code);
    Some(Read(Encode(code), to, |Encode(code)|))
  }

  /** A high surrogate is followed by the escape of a low one; five bytes are set aside for the four. */
  function LowHalf(t: seq<Byte>, i: nat, high: nat): (r: Option<Read<seq<Byte>>>)
    requires i <= |t| && IsHigh(high)
    ensures r.Some? ==> i < r.value.to <= |t| && |r.value.value| == 4 && r.value.room == 5
  {
    if At(t, i) != 0x5C || At(t, i + 1) != 0x75 || i + 6 >= |t| then None
    else
      var low := Hex4(t, i + 2);
      if low == None || !IsLow(low.value) then None
      else
        EncodeTable(Pair(high, low.value));
        Some(Read(Encode(Pair(high, low.value)), i + 6, 5))
  }

  function Ahead(bytes: seq<Byte>, room: nat, rest: Option<Read<seq<Byte>>>): Option<Read<seq<Byte>>> {
    if rest == None then None
    else Some(Read(bytes + rest.value.value, rest.value.to, room + rest.value.room))
  }

  /** The characters up to the closing quote; the string ends behind it, with room for a NUL. */
  function Chars(t: seq<Byte>, i: nat): (r: Option<Read<seq<Byte>>>)
    ensures r.Some? ==> i < r.value.to <= |t| && |r.value.value| < r.value.room
    decreases |t| - i
  {
    if i >= |t| then None
    else if t[i] == 0x22 then Some(Read([], i + 1, 1))
    else
      var c := Char(t, i);
      if c == None then None
      else Ahead(c.value.value, c.value.room, Chars(t, c.value.to))
  }

  function ReadString(t: seq<Byte>, i: nat): (r: Option<Read<seq<Byte>>>)
    ensures r.Some? ==> i < r.value.to <= |t|
  {
    if At(t, i) == 0x22 then Chars(t, i + 1) else None
  }

  function IdentEnd(t: seq<Byte>, i: nat): (j: nat)
    requires i <= |t|
    ensures i <= j <= |t| && !IsIdent(At(t, j)) && forall k :: i <= k < j ==> IsIdent(t[k])
    decreases |t| - i
  {
    if i < |t| && IsIdent(t[i]) then IdentEnd(t, i + 1) else i
  }

  /** A key may be a bare, possibly empty, run of identifier characters. */
  function ReadKey(t: seq<Byte>, m: Flags, i: nat): (r: Option<Read<seq<Byte>>>)
    requires i < |t|
    ensures r.Some? ==> i <= r.value.to <= |t|
  {
    if m.unquotedKeys && t[i] != 0x22 then
      var j := IdentEnd(t, i);
      Some(Read(t[i..j], j, j - i + 1))
    else ReadString(t, i)
  }

  /* Numbers. */

  function Digits(t: seq<Byte>, i: nat): (j: nat)
    ensures i <= j && (i <= |t| ==> j <= |t|) && !IsDigit(At(t, j))
    ensures forall k :: i <= k < j ==> IsDigit(At(t, k))
    decreases |t| - i
  {
    if i < |t| && IsDigit(t[i]) then Digits(t, i + 1) else i
  }

  /** An optional minus, then digits without a superfluous zero; a minus may end the text. */
  function Whole(t: seq<Byte>, i: nat): (r: Option<nat>)
    requires i < |t|
    ensures r.Some? ==> i <= r.value <= |t|
    ensures r.Some? && (t[i] == 0x2D || IsDigit(t[i])) ==> i < r.value
  {
    var a := if t[i] == 0x2D then i + 1 else i;
    if a > i && a < |t| && !IsDigit(t[a]) then None
    else if At(t, a) == 0x30 && IsDigit(At(t, a + 1)) then None
    else Some(Digits(t, a))
  }

  function Fraction(t: seq<Byte>, i: nat): (r: Option<nat>)
    requires i <= |t|
    ensures r.Some? ==> i <= r.value <= |t|
  {
    if At(t, i) != 0x2E then Some(i)
    else if !IsDigit(At(t, i + 1)) then None
    else Some(Digits(t, i + 1))
  }

  function Exponent(t: seq<Byte>, i: nat): (r: Option<nat>)
    requires i <= |t|
    ensures r.Some? ==> i <= r.value <= |t|
  {
    if At(t, i) != 0x65 && At(t, i) != 0x45 then Some(i)
    else
      var a := if At(t, i + 1) == 0x2D || At(t, i + 1) == 0x2B then i + 2 else i + 1;
      if !IsDigit(At(t, a)) then None else Some(Digits(t, a))
  }

  /** What may follow a number. */
  predicate Follows(m: Flags, b: Byte) {
    IsBlank(b) || b == 0x7D || b == 0x2C || b == 0x5D || (m.equals && b == 0x3D)
  }

  function NumberEnd(t: seq<Byte>, m: Flags, i: nat): (r: Option<nat>)
    requires i < |t|
    ensures r.Some? ==> i <= r.value <= |t|
    ensures r.Some? && (t[i] == 0x2D || IsDigit(t[i])) ==> i < r.value
  {
    var whole := Whole(t, i);
    if whole == None then None
    else
      var fraction := Fraction(t, whole.value);
      if fraction == None then None
      else
        var end := Exponent(t, fraction.value);
        if end == None || (end.value < |t| && !Follows(m, t[end.value])) then None else end
  }

  /* Values. */

  const TRUE: seq<Byte> := [0x74, 0x72, 0x75, 0x65]
  const FALSE: seq<Byte> := [0x66, 0x61, 0x6C, 0x73, 0x65]
  const NULL: seq<Byte> := [0x6E, 0x75, 0x6C, 0x6C]

  predicate Has(t: seq<Byte>, i: nat, word: seq<Byte>) {
    i + |word| <= |t| && t[i..i + |word|] == word
  }

  function ReadValue(t: seq<Byte>, m: Flags, from: nat): (r: Option<Read<Value>>)
    requires from <= |t|
    ensures r.Some? ==> from < r.value.to <= |t|
    decreases |t| - from, 1
  {
    var i := Skip(t, from);
    if i == |t| then None else ReadHere(t, m, i)
  }

  function AsText(i: nat, r: Option<Read<seq<Byte>>>): Option<Read<Value>> {
    if r == None then None else Some(Read(Value(i, r.value.to, Text(r.value.value)), r.value.to, r.value.room))
  }

  function AsMap(i: nat, r: Option<Read<seq<Member>>>): Option<Read<Value>> {
    if r == None then None else Some(Read(Value(i, r.value.to, Map(r.value.value)), r.value.to, r.value.room))
  }

  function AsArray(i: nat, r: Option<Read<seq<Value>>>): Option<Read<Value>> {
    if r == None then None else Some(Read(Value(i, r.value.to, Array(r.value.value)), r.value.to, r.value.room))
  }

  function ReadNumber(t: seq<Byte>, m: Flags, i: nat): (r: Option<Read<Value>>)
    requires i < |t| && (t[i] == 0x2D || IsDigit(t[i]))
    ensures r.Some? ==> i < r.value.to <= |t|
  {
    var e := NumberEnd(t, m, i);
    if e == None then None else Some(Read(Value(i, e.value, Number(t[i..e.value])), e.value, e.value - i + 1))
  }

  function ReadWord(t: seq<Byte>, i: nat): (r: Option<Read<Value>>)
    ensures r.Some? ==> i < r.value.to <= |t|
  {
    if Has(t, i, TRUE) then Some(Read(Value(i, i + 4, Truth(true)), i + 4, 0))
    else if Has(t, i, FALSE) then Some(Read(Value(i, i + 5, Truth(false)), i + 5, 0))
    else if Has(t, i, NULL) then Some(Read(Value(i, i + 4, Nothing), i + 4, 0))
    else None
  }

  /** The value that starts at `i`. */
  function ReadHere(t: seq<Byte>, m: Flags, i: nat): (r: Option<Read<Value>>)
    requires i < |t|
    ensures r.Some? ==> i < r.value.to <= |t|
    decreases |t| - i, 0
  {
    if t[i] == 0x22 then AsText(i, ReadString(t, i))
    else if t[i] == 0x7B then AsMap(i, ReadMembers(t, m, i + 1, false, false))
    else if t[i] == 0x5B then AsArray(i, ReadItems(t, m, i + 1, false))
    else if t[i] == 0x2D || IsDigit(t[i]) then ReadNumber(t, m, i)
    else ReadWord(t, i)
  }

  function Before<T>(x: T, room: nat, rest: Option<Read<seq<T>>>): (r: Option<Read<seq<T>>>)
    ensures r.Some? <==> rest.Some?
    ensures r.Some? ==> r.value.to == rest.value.to
  {
    if rest == None then None
    else Some(Read([x] + rest.value.value, rest.value.to, room + rest.value.room))
  }

  /** The rest of an array; `comma` says that a value has just ended. */
  function ReadItems(t: seq<Byte>, m: Flags, from: nat, comma: bool): (r: Option<Read<seq<Value>>>)
    requires from <= |t|
    ensures r.Some? ==> from < r.value.to <= |t|
    decreases |t| - from, if comma then 4 else 3
  {
    var i := Skip(t, from);
    if i == |t| then None
    else if t[i] == 0x5D then Some(Read([], i + 1, 0))
    else if !comma then ReadItem(t, m, i)
    else if t[i] == 0x2C then
      (if m.trailingComma then ReadItems(t, m, i + 1, false)
       else if Skip(t, i + 1) == |t| then None
       else ReadItem(t, m, Skip(t, i + 1)))
    else if m.noCommas then ReadItem(t, m, i)
    else None
  }

  function ReadItem(t: seq<Byte>, m: Flags, i: nat): (r: Option<Read<seq<Value>>>)
    requires i < |t|
    ensures r.Some? ==> i < r.value.to <= |t|
    decreases |t| - i, 2
  {
    var v := ReadHere(t, m, i);
    if v == None then None
    else Before(v.value.value, v.value.room, ReadItems(t, m, v.value.to, true))
  }

  /** The rest of a map, up to its brace, or to the end of the text for a global one. */
  function ReadMembers(t: seq<Byte>, m: Flags, from: nat, comma: bool, global: bool): (r: Option<Read<seq<Member>>>)
    requires from <= |t|
    ensures r.Some? ==> from <= r.value.to <= |t| && (!global ==> from < r.value.to)
    decreases |t| - from, if comma then 4 else 3
  {
    var i := Skip(t, from);
    if i == |t| then (if global then Some(Read([], i, 0)) else None)
    else if !global && t[i] == 0x7D then Some(Read([], i + 1, 0))
    else if !comma then ReadMember(t, m, i, global)
    else if t[i] == 0x2C then
      (if m.trailingComma then ReadMembers(t, m, i + 1, false, global)
       else if Skip(t, i + 1) == |t| then None
       else ReadMember(t, m, Skip(t, i + 1), global))
    else if m.noCommas then ReadMember(t, m, i, global)
    else None
  }

  /** The position behind the colon that comes next. */
  function ReadColon(t: seq<Byte>, m: Flags, from: nat): (r: Option<nat>)
    requires from <= |t|
    ensures r.Some? ==> from < r.value <= |t|
  {
    var k := Skip(t, from);
    if k < |t| && (t[k] == 0x3A || (m.equals && t[k] == 0x3D)) then Some(k + 1) else None
  }

  /** A key, a colon and a value. */
  function ReadEntry(t: seq<Byte>, m: Flags, i: nat): (r: Option<Read<Member>>)
    requires i < |t|
    ensures r.Some? ==> i < r.value.to <= |t|
    decreases |t| - i, 1
  {
    var key := ReadKey(t, m, i);
    if key == None then None
    else
      var colon := ReadColon(t, m, key.value.to);
      if colon == None then None else KeyAndValue(key.value, ReadValue(t, m, colon.value))
  }

  function KeyAndValue(key: Read<seq<Byte>>, v: Option<Read<Value>>): (r: Option<Read<Member>>)
    ensures r.Some? <==> v.Some?
    ensures r.Some? ==> r.value.to == v.value.to
  {
    if v == None then None
    else Some(Read(Member(key.value, v.value.value), v.value.to, key.room + v.value.room))
  }

  function ReadMember(t: seq<Byte>, m: Flags, i: nat, global: bool): (r: Option<Read<seq<Member>>>)
    requires i < |t|
    ensures r.Some? ==> i < r.value.to <= |t|
    decreases |t| - i, 2
  {
    var e := ReadEntry(t, m, i);
    if e == None then None
    else Before(e.value.value, e.value.room, ReadMembers(t, m, e.value.to, true, global))
  }

  /** In the global form the braces around the members of a text may be missing. */
  function ReadGlobal(t: seq<Byte>, m: Flags, from: nat): (r: Option<Read<Value>>)
    requires from <= |t|
    ensures r.Some? ==> r.value.to <= |t|
  {
    var i := Skip(t, from);
    if i == |t| || t[i] != 0x7B then AsMap(i, ReadMembers(t, m, i, false, true)) else ReadHere(t, m, i)
  }

  /** A whole text is one value, with nothing but blanks after it. */
  function ReadText(t: seq<Byte>, m: Flags): (r: Option<Read<Value>>)
    ensures r.Some? ==> r.value.to <= |t|
  {
    var v := if m.global then ReadGlobal(t, m, 0) else ReadValue(t, m, 0);
    if v == None || Skip(t, v.value.to) != |t| then None else v
  }

  /*
    Numbers the text cuts off. After the letter and the sign of an exponent a digit is taken
    unseen; at the end of the text that leaves the position behind the terminator.
   */

  /** The text ends between the exponent letter at `i`, or the sign behind it, and the first digit. */
  predicate CutExponent(t: seq<Byte>, i: nat) {
    (At(t, i) == 0x65 || At(t, i) == 0x45) &&
    |t| == if At(t, i + 1) == 0x2D || At(t, i + 1) == 0x2B then i + 2 else i + 1
  }

  predicate CutNumber(t: seq<Byte>, i: nat)
    requires i < |t|
  {
    var whole := Whole(t, i);
    whole.Some? &&
    var fraction := Fraction(t, whole.value);
    fraction.Some? && CutExponent(t, fraction.value)
  }

  /** The value at `i` is such a number, or a map whose last value is one. */
  predicate CutHere(t: seq<Byte>, m: Flags, i: nat)
    requires i < |t|
    decreases |t| - i, 0
  {
    if t[i] == 0x7B then CutMembers(t, m, i + 1, false, false)
    else (t[i] == 0x2D || IsDigit(t[i])) && CutNumber(t, i)
  }

  predicate CutMembers(t: seq<Byte>, m: Flags, from: nat, comma: bool, global: bool)
    requires from <= |t|
    decreases |t| - from, if comma then 4 else 3
  {
    var i := Skip(t, from);
    if i == |t| || (!global && t[i] == 0x7D) then false
    else if !comma then CutMember(t, m, i, global)
    else if t[i] == 0x2C then
      (if m.trailingComma then CutMembers(t, m, i + 1, false, global)
       else Skip(t, i + 1) < |t| && CutMember(t, m, Skip(t, i + 1), global))
    else m.noCommas && CutMember(t, m, i, global)
  }

  predicate CutMember(t: seq<Byte>, m: Flags, i: nat, global: bool)
    requires i < |t|
    decreases |t| - i, 2
  {
    var e := ReadEntry(t, m, i);
    if e.Some? then CutMembers(t, m, e.value.to, true, global) else CutEntry(t, m, i)
  }

  predicate CutEntry(t: seq<Byte>, m: Flags, i: nat)
    requires i < |t|
    decreases |t| - i, 1
  {
    var key := ReadKey(t, m, i);
    key.Some? &&
    var colon := ReadColon(t, m, key.value.to);
    colon.Some? && Skip(t, colon.value) < |t| && CutHere(t, m, Skip(t, colon.value))
  }

  /** The last value of the text is such a number, and only maps are open around it. */
  predicate CutText(t: seq<Byte>, m: Flags) {
    var i := Skip(t, 0);
    if m.global && At(t, i) != 0x7B then CutMembers(t, m, i, false, true)
    else i < |t| && CutHere(t, m, i)
  }

  /** The text ends with an exponent letter, or with one and a sign. */
  predicate EndsInExponent(t: seq<Byte>) {
    var n := |t|;
    (n >= 1 && (t[n - 1] == 0x65 || t[n - 1] == 0x45)) ||
    (n >= 2 && (t[n - 2] == 0x65 || t[n - 2] == 0x45) && (t[n - 1] == 0x2D || t[n - 1] == 0x2B))
  }

  lemma CutNumberEnds(t: seq<Byte>, i: nat)
    requires i < |t| && CutNumber(t, i)
    ensures EndsInExponent(t)
  {
    hide Whole, Fraction;
  }

  lemma {:induction false} CutHereEnds(t: seq<Byte>, m: Flags, i: nat)
    requires i < |t| && CutHere(t, m, i)
    ensures EndsInExponent(t)
    decreases |t| - i, 0
  {
    hide EndsInExponent, CutNumber, CutMembers;
    if t[i] == 0x7B {
      CutMembersEnd(t, m, i + 1, false, false);
    } else {
      CutNumberEnds(t, i);
    }
  }

  lemma {:induction false} CutMembersEnd(t: seq<Byte>, m: Flags, from: nat, comma: bool, global: bool)
    requires from <= |t| && CutMembers(t, m, from, comma, global)
    ensures EndsInExponent(t)
    decreases |t| - from, if comma then 4 else 3
  {
    hide EndsInExponent, CutMember;
    var i := Skip(t, from);
    if !comma || t[i] != 0x2C {
      CutMemberEnds(t, m, i, global);
    } else if m.trailingComma {
      CutMembersEnd(t, m, i + 1, false, global);
    } else {
      CutMemberEnds(t, m, Skip(t, i + 1), global);
    }
  }

  lemma {:induction false} CutMemberEnds(t: seq<Byte>, m: Flags, i: nat, global: bool)
    requires i < |t| && CutMember(t, m, i, global)
    ensures EndsInExponent(t)
    decreases |t| - i, 2
  {
    hide EndsInExponent, CutMembers, CutHere, ReadEntry, ReadKey, ReadColon;
    var e := ReadEntry(t, m, i);
    if e.Some? {
      CutMembersEnd(t, m, e.value.to, true, global);
    } else {
      CutHereEnds(t, m, Skip(t, ReadColon(t, m, ReadKey(t, m, i).value.to).value));
    }
  }

  /** Only texts that end in the middle of an exponent are cut off. */
  lemma CutTextEnds(t: seq<Byte>, m: Flags)
    requires CutText(t, m)
    ensures EndsInExponent(t)
  {
    hide EndsInExponent, CutMembers, CutHere;
    var i := Skip(t, 0);
    if m.global && At(t, i) != 0x7B {
      CutMembersEnd(t, m, i, false, true);
    } else {
      CutHereEnds(t, m, i);
    }
  }
}
