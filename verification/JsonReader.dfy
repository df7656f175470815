/**
  The two passes of std/json.c over one text. The first validates and counts bytes; the
  second builds the value and writes decoded text to a buffer of the counted size without
  checking anything. Every index of the buffer, and of the text and its terminator, is
  checked by the verifier, so both passes stay inside them, but for one read: behind a number
  cut off in its exponent the first pass looks at the byte after the terminator. The second
  pass also roots what it builds on a stack of the machine whose size it does not check.
 */
module JsonReader {
  import opened Arithmetic
  import opened Wrappers
  import opened Utf8
  import opened JsonGrammar

  datatype Error =
    | NoError
    | ExpectedClosing | ExpectedColon | ExpectedQuote
    | InvalidEscape | InvalidNumber | InvalidValue | InvalidString
    | UnexpectedEof | UnexpectedChars | Unknown

  /** The places of the exempt stack, where objects are rooted that nothing else refers to. */
  const EXEMPT_MAX: nat := 16

  function Larger(a: nat, b: nat): nat {
    if a < b then b else a
  }

  /**
    How many places the build of a value takes at the most. An open array or map takes one; a
    value that is put into a map one more, and one that is appended to an array two more.
   */
  function Places(v: Value): nat
    decreases v
  {
    match v.data
    case Array(items) => PlacesOfItems(items)
    case Map(members) => PlacesOfMembers(members)
    case _ => 0
  }

  function PlacesOfItems(items: seq<Value>): nat
    decreases items
  {
    if items == [] then 1
    else Larger(PlacesOfItems(items[..|items| - 1]), 1 + Larger(2, Places(items[|items| - 1])))
  }

  function PlacesOfMembers(members: seq<Member>): nat
    decreases members
  {
    if members == [] then 1
    else Larger(PlacesOfMembers(members[..|members| - 1]), 1 + Larger(1, Places(members[|members| - 1].value)))
  }

  lemma OneItemMore(items: seq<Value>, v: Value)
    ensures PlacesOfItems(items + [v]) == Larger(PlacesOfItems(items), 1 + Larger(2, Places(v)))
  {
    assert (items + [v])[..|items|] == items;
  }

  lemma OneMemberMore(members: seq<Member>, m: Member)
    ensures PlacesOfMembers(members + [m]) == Larger(PlacesOfMembers(members), 1 + Larger(1, Places(m.value)))
  {
    assert (members + [m])[..|members|] == members;
  }

  lemma NoItems()
    ensures PlacesOfItems([]) == 1
  {
  }

  lemma NoMembers()
    ensures PlacesOfMembers([]) == 1
  {
  }

  lemma {:induction false} SomeItems(items: seq<Value>)
    ensures PlacesOfItems(items) >= 1
  {
    if items != [] {
      SomeItems(items[..|items| - 1]);
    }
  }

  lemma {:induction false} SomePlaces(members: seq<Member>)
    ensures PlacesOfMembers(members) >= 1
  {
    if members != [] {
      SomePlaces(members[..|members| - 1]);
    }
  }

  class Reader {
    const text: seq<Byte>
    const flags: Flags
    var off: nat
    var dataSize: nat
    var error: Error
    var data: array<Byte>
    var pos: nat
    var exempted: nat
    var deepest: nat

    constructor (text: seq<Byte>, flags: Flags, exempted: nat)
      ensures this.text == text && this.flags == flags
      ensures off == 0 && dataSize == 0 && pos == 0 && error == NoError
      ensures this.exempted == exempted == deepest
    {
      this.exempted := exempted;
      deepest := exempted;
      this.text := text;
      this.flags := flags;
      off := 0;
      dataSize := 0;
      error := NoError;
      data := new Byte[0];
      pos := 0;
    }

    /** The byte at a position of the text or its terminator. */
    function Src(i: nat): Byte
      requires i <= |text|
    {
      At(text, i)
    }

    /** `jml_json_skip_whitespace`. */
    method SkipWhitespace() returns (consumed: bool)
      requires off <= |text|
      modifies `off
      ensures off == Skip(text, old(off)) && consumed == IsBlank(At(text, old(off)))
    {
      var offset := off;
      if !IsBlank(Src(offset)) {
        return false;
      }
      var again := true;
      while again
        invariant off == old(off) <= offset <= |text|
        invariant Skip(text, old(off)) == Skip(text, offset)
        invariant again ==> offset < |text|
        invariant !again ==> offset == |text|
        decreases |text| - offset, again
      {
        if !IsBlank(Src(offset)) {
          off := offset;
          return true;
        }
        offset := offset + 1;
        again := offset < |text|;
      }
      off := offset;
      return true;
    }

    /** `jml_json_skip_all`: true at the end of the text. */
    method SkipAll() returns (end: bool)
      requires off <= |text|
      modifies `off, `error
      ensures off == Skip(text, old(off)) && end == (off == |text|)
      ensures end ==> error != NoError
    {
      var consumed := true;
      while consumed
        invariant off <= |text| && Skip(text, old(off)) == Skip(text, off)
        invariant !consumed ==> off == Skip(text, old(off))
        decreases |text| - off, consumed
      {
        if off == |text| {
          error := UnexpectedEof;
          return true;
        }
        consumed := SkipWhitespace();
      }
      if off == |text| {
        error := UnexpectedEof;
        return true;
      }
      return false;
    }

    /** `jml_json_hex_value` of the four digits at `at`. */
    method HexValue(at: nat) returns (r: Option<nat>)
      requires at + 3 <= |text|
      ensures r == Hex4(text, at)
    {
      var result := 0;
      var i := 0;
      while i < 4
        invariant i <= 4
        invariant forall k :: at <= k < at + i ==> HexDigit(At(text, k)).Some?
        invariant i == 0 ==> result == 0
        invariant i >= 1 ==> result == PartialHex(text, at, i)
      {
        var digit := HexDigit(Src(at + i));
        if digit == None {
          return None;
        }
        result := result * 16 + digit.value;
        i := i + 1;
      }
      return Some(result);
    }

    /** The switch on the character after a backslash; a high surrogate leaves its pair half read. */
    method EscapeSize(from: nat, sofar: nat, half: nat) returns (failed: bool, offset: nat, counted: nat, high: nat)
      requires 0 < from < |text| && text[from - 1] == 0x5C
      requires half != 0 ==> IsHigh(half) && text[from] == 0x75
      modifies `off, `error
      ensures failed ==> error != NoError
      ensures !failed && high != 0 ==>
        half == 0 && IsHigh(high) && offset == from + 5 < |text| && counted == sofar &&
        text[offset] == 0x5C && At(text, offset + 1) == 0x75 && Char(text, from - 1) == LowHalf(text, offset, high)
      ensures half == 0 && (failed || high == 0) ==> Agrees(Char(text, from - 1), failed, offset, counted + 1 - sofar)
      ensures half != 0 ==> (failed || high == 0) && Agrees(LowHalf(text, from - 1, half), failed, offset, counted + 2 - sofar)
      ensures !failed ==> from < offset <= |text|
      ensures off == old(off) || failed
    {
      offset, counted, high := from, sofar, half;
      failed := false;
      var size := |text|;
      if half == 0 {
        CharRules(text, from - 1);
      } else {
        LowRules(text, from - 1, half);
      }
      hide Char, LowHalf, Hex4, Letter, Encode, Pair;
      var c := Src(offset);
      if c == 0x22 || c == 0x5C || c == 0x2F || c == 0x62 || c == 0x66 || c == 0x6E || c == 0x72 || c == 0x74 {
        offset := offset + 1;
      } else if c == 0x75 {
        if !(offset + 5 < size) {
          error := InvalidEscape;
          off := offset;
          return true, offset, counted, high;
        }
        var code := HexValue(offset + 1);
        if code == None {
          error := InvalidEscape;
          off := offset;
          return true, offset, counted, high;
        }
        var codepoint := code.value;
        if high != 0 {
          if 0xDC00 <= codepoint <= 0xDFFF {
            counted := counted + 3;
            high := 0;
          } else {
            error := InvalidEscape;
            off := offset;
            return true, offset, counted, high;
          }
        } else if codepoint <= 0x7F {
          counted := counted + 0;
        } else if codepoint <= 0x7FF {
          counted := counted + 1;
        } else if 0xD800 <= codepoint <= 0xDBFF {
          LowRules(text, offset + 5, codepoint);
          if offset + 11 > size || Src(offset + 5) != 0x5C || Src(offset + 6) != 0x75 {
            error := InvalidEscape;
            off := offset;
            return true, offset, counted, high;
          }
          high := codepoint;
        } else if 0xD800 <= codepoint <= 0xDFFF {
          error := InvalidEscape;
          off := offset;
          return true, offset, counted, high;
        } else {
          counted := counted + 2;
        }
        offset := offset + 5;
      } else {
        error := InvalidEscape;
        off := offset;
        return true, offset, counted, high;
      }
    }

    /** One turn of the loop over the characters. */
    method CharSize(offset: nat, sofar: nat, high: nat) returns (failed: bool, next: nat, counted: nat, half: nat)
      requires offset < |text| && text[offset] != 0x22
      requires high != 0 ==> Waiting(text, offset, high)
      modifies `off, `error
      ensures failed ==> error != NoError
      ensures !failed && half != 0 ==>
        high == 0 && text[offset] == 0x5C && next == offset + 6 && counted == sofar + 1 &&
        Waiting(text, next, half) && Char(text, offset) == LowHalf(text, next, half)
      ensures failed || half == 0 ==>
        Agrees(CharOf(text, offset, high), failed, next, counted - (if high == 0 then sofar else sofar - 1))
      ensures !failed ==> offset < next <= |text|
      ensures off == old(off) || failed
    {
      next, half := offset, high;
      failed := false;
      counted := sofar + 1;
      var b := Src(offset);
      CharRules(text, offset);
      hide Char, LowHalf, Hex4, Encode, Pair;
      if b == 0x00 || b == 0x09 {
        error := InvalidString;
        off := offset;
        return true, next, counted, half;
      }
      if b == 0x5C {
        next := next + 1;
        if next == |text| {
          error := UnexpectedEof;
          off := next;
          return true, next, counted, half;
        }
        failed, next, counted, half := EscapeSize(next, counted, half);
      } else if b == 0x0D || b == 0x0A {
        error := InvalidEscape;
        off := offset;
        return true, next, counted, half;
      } else {
        next := next + 1;
      }
    }

    /** `jml_json_string_size`: accepts exactly the strings of the grammar and counts their room. */
    method StringSize() returns (failed: bool)
      requires off <= |text|
      modifies `off, `dataSize, `error
      ensures failed ==> error != NoError
      ensures var r := ReadString(text, old(off));
        if r.Some? then !failed && off == r.value.to && dataSize == old(dataSize) + r.value.room else failed
    {
      var offset := off;
      var size := |text|;
      var counted := 0;
      var high := 0;
      if Src(offset) != 0x22 {
        error := ExpectedQuote;
        return true;
      }
      offset := offset + 1;
      ghost var start := offset;
      ghost var done: seq<Byte> := [];
      AheadNothing(Chars(text, start));
      assert Scanned(text, start, done, counted, offset, high);
      hide Chars, Char, LowHalf, Scanned, CharOf, Waiting;
      while offset < size && Src(offset) != 0x22
        invariant offset <= size && off == old(off) && dataSize == old(dataSize)
        invariant Scanned(text, start, done, counted, offset, high) && (high != 0 ==> Waiting(text, offset, high))
        decreases size - offset
      {
        var bad, next, more, half := CharSize(offset, counted, high);
        done := ScanTurn(text, start, done, counted, offset, high, bad, next, more, half);
        if bad {
          return true;
        }
        offset, counted, high := next, more, half;
      }
      ScanEnd(text, start, done, counted, offset);
      if offset == size {
        error := UnexpectedEof;
        off := offset - 1;
        return true;
      }
      dataSize := dataSize + counted;
      dataSize := dataSize + 1;
      offset := offset + 1;
      off := offset;
      return false;
    }

    /** `jml_json_key_size`. */
    method KeySize() returns (failed: bool)
      requires off < |text|
      modifies `off, `dataSize, `error
      ensures failed ==> error != NoError
      ensures var r := ReadKey(text, flags, old(off));
        if r.Some? then !failed && off == r.value.to && dataSize == old(dataSize) + r.value.room else failed
    {
      if flags.unquotedKeys {
        var offset := off;
        var size := |text|;
        var counted := dataSize;
        if Src(offset) == 0x22 {
          failed := StringSize();
        } else {
          while offset < size && IsIdent(Src(offset))
            invariant off <= offset <= size
            invariant IdentEnd(text, off) == IdentEnd(text, offset)
            invariant counted == dataSize + offset - off
          {
            offset := offset + 1;
            counted := counted + 1;
          }
          counted := counted + 1;
          off := offset;
          dataSize := counted;
          failed := false;
        }
      } else {
        failed := StringSize();
      }
    }

    /** The loops over digits. */
    method SkipDigits(from: nat) returns (offset: nat)
      requires from <= |text|
      ensures offset == Digits(text, from)
    {
      offset := from;
      while offset < |text| && IsDigit(Src(offset))
        invariant from <= offset <= |text| && Digits(text, from) == Digits(text, offset)
      {
        offset := offset + 1;
      }
    }

    /* The three parts of a number; none for an error. */

    method WholeSize(from: nat) returns (r: Option<nat>)
      requires from < |text| && (text[from] == 0x2D || IsDigit(text[from]))
      modifies `off, `error
      ensures r == Whole(text, from) && (r == None ==> error != NoError) && (r.Some? ==> off == old(off))
    {
      var offset := from;
      var size := |text|;
      var foundSign := false;
      if offset < size && (Src(offset) == 0x2D || (flags != MODE_STRICT && Src(offset) == 0x2B)) {
        offset := offset + 1;
        foundSign := true;
      }
      if foundSign && offset < size && !IsDigit(Src(offset)) {
        error := InvalidNumber;
        off := offset;
        return None;
      }
      if offset < size && Src(offset) == 0x30 {
        offset := offset + 1;
        if offset < size && IsDigit(Src(offset)) {
          error := InvalidNumber;
          off := offset;
          return None;
        }
      }
      offset := SkipDigits(offset);
      return Some(offset);
    }

    method FractionSize(from: nat) returns (r: Option<nat>)
      requires from <= |text|
      modifies `off, `error
      ensures r == Fraction(text, from) && (r == None ==> error != NoError) && (r.Some? ==> off == old(off))
    {
      var offset := from;
      if offset < |text| && Src(offset) == 0x2E {
        offset := offset + 1;
        if !IsDigit(Src(offset)) {
          error := InvalidNumber;
          off := offset;
          return None;
        }
        offset := SkipDigits(offset);
      }
      return Some(offset);
    }

    /** A digit is taken unseen after the exponent letter and sign, even at the end of the text. */
    method ExponentSize(from: nat) returns (r: Option<nat>)
      requires from <= |text|
      modifies `off, `error
      ensures r == None ==> error != NoError && Exponent(text, from) == None && !CutExponent(text, from)
      ensures r.Some? ==> off == old(off) && r == if CutExponent(text, from) then Some(|text| + 1) else Exponent(text, from)
    {
      var offset := from;
      var size := |text|;
      if offset < size && (Src(offset) == 0x65 || Src(offset) == 0x45) {
        offset := offset + 1;
        if offset < size && (Src(offset) == 0x2D || Src(offset) == 0x2B) {
          offset := offset + 1;
        }
        if offset < size && !IsDigit(Src(offset)) {
          error := InvalidNumber;
          off := offset;
          return None;
        }
        offset := offset + 1;
        if offset <= size {
          offset := SkipDigits(offset);
        }
      }
      return Some(offset);
    }

    /**
      `jml_json_number_size`, of a number that starts with a minus or a digit. A number cut
      off after its exponent letter leaves the position behind the end of the text.
     */
    method NumberSize() returns (failed: bool)
      requires off < |text| && (text[off] == 0x2D || IsDigit(text[off]))
      modifies `off, `dataSize, `error
      ensures failed ==> error != NoError
      ensures var e := NumberEnd(text, flags, old(off));
        if e.Some? then !failed && off == e.value && dataSize == old(dataSize) + (e.value - old(off)) + 1
        else if CutNumber(text, old(off)) then !failed && off == |text| + 1
        else failed
    {
      hide Whole, Fraction, Exponent, CutExponent;
      var whole := WholeSize(off);
      if whole == None {
        return true;
      }
      var fraction := FractionSize(whole.value);
      if fraction == None {
        return true;
      }
      CutIsNone(text, fraction.value);
      var end := ExponentSize(fraction.value);
      if end == None {
        return true;
      }
      var offset := end.value;
      if offset < |text| && !Follows(flags, Src(offset)) {
        error := InvalidNumber;
        off := offset;
        return true;
      }
      dataSize := dataSize + offset - off;
      dataSize := dataSize + 1;
      off := offset;
      return false;
    }

    method ColonSize() returns (failed: bool)
      requires off <= |text|
      modifies `off, `error
      ensures failed ==> error != NoError
      ensures if ReadColon(text, flags, old(off)) == None then failed
              else !failed && off == ReadColon(text, flags, old(off)).value
    {
      var end := SkipAll();
      if end {
        error := UnexpectedEof;
        return true;
      }
      if flags.equals {
        if Src(off) != 0x3A && Src(off) != 0x3D {
          error := ExpectedColon;
          return true;
        }
      } else {
        if Src(off) != 0x3A {
          error := ExpectedColon;
          return true;
        }
      }
      off := off + 1;
      return false;
    }

    /** One member of a map: the part of the loop of `jml_json_object_size` after the comma. */
    method EntrySize() returns (failed: bool)
      requires off < |text|
      modifies `off, `dataSize, `error
      ensures failed ==> error != NoError
      ensures Sized(ReadEntry(text, flags, old(off)), CutEntry(text, flags, old(off)), failed, off, dataSize - old(dataSize), |text|)
      decreases |text| - off, 1
    {
      EntryStep(text, flags, off);
      CutEntryStep(text, flags, off);
      hide ReadKey, ReadValue, ReadEntry, ReadHere, ReadColon, CutEntry, CutHere;
      var bad := KeySize();
      if bad {
        error := InvalidString;
        return true;
      }
      bad := ColonSize();
      if bad {
        return true;
      }
      ValueSkip(text, flags, off);
      var end := SkipAll();
      if end {
        error := UnexpectedEof;
        return true;
      }
      failed := ValueSize(false);
    }

    /** What comes between two members; `next` when the loop starts over before the second. */
    method CommaSize(ghost bare: bool) returns (failed: bool, next: bool)
      requires off < |text| && !IsBlank(text[off]) && (!bare ==> text[off] != 0x7D)
      modifies `off, `error
      ensures failed ==> error != NoError && ReadMembers(text, flags, old(off), true, bare) == None
      ensures failed ==> !CutMembers(text, flags, old(off), true, bare)
      ensures !failed ==> old(off) <= off <= |text|
      ensures !failed && next ==>
        ReadMembers(text, flags, old(off), true, bare) == ReadMembers(text, flags, off, false, bare) &&
        CutMembers(text, flags, old(off), true, bare) == CutMembers(text, flags, off, false, bare)
      ensures !failed && !next ==>
        off < |text| && ReadMembers(text, flags, old(off), true, bare) == ReadMember(text, flags, off, bare) &&
        CutMembers(text, flags, old(off), true, bare) == CutMember(text, flags, off, bare)
    {
      hide ReadMembers, ReadMember, CutMembers, CutMember;
      MembersStep(text, flags, off, true, bare);
      CutMembersStep(text, flags, off, true, bare);
      MemberDue(text, flags, off, bare);
      if Src(off) == 0x2C {
        off := off + 1;
      } else if !flags.noCommas {
        error := ExpectedClosing;
        return true, false;
      }
      if flags.trailingComma {
        return false, true;
      }
      var end := SkipAll();
      if end {
        error := UnexpectedEof;
        return true, false;
      }
      return false, false;
    }

    /** One member, where one is due. */
    method MemberSize(ghost bare: bool) returns (failed: bool, ghost member: Member)
      requires off < |text|
      modifies `off, `dataSize, `error
      ensures failed ==>
        error != NoError && ReadMember(text, flags, old(off), bare) == None && !CutMember(text, flags, old(off), bare)
      ensures !failed ==> off > old(off) && off <= |text| + 1
      ensures !failed && off > |text| ==>
        ReadMember(text, flags, old(off), bare) == None && CutMember(text, flags, old(off), bare)
      ensures !failed && off <= |text| ==>
        dataSize >= old(dataSize) &&
        ReadMember(text, flags, old(off), bare) ==
          Before(member, dataSize - old(dataSize), ReadMembers(text, flags, off, true, bare)) &&
        CutMember(text, flags, old(off), bare) == CutMembers(text, flags, off, true, bare)
      decreases |text| - off, 2
    {
      hide ReadEntry, ReadMembers, ReadMember, CutMembers, CutMember, CutEntry, Before;
      ghost var entry := ReadEntry(text, flags, off);
      MemberStep(text, flags, off, bare);
      CutMemberStep(text, flags, off, bare);
      member := if entry.Some? then entry.value.value else Member([], Value(0, 0, Nothing));
      failed := EntrySize();
    }

    /** What the loop over the members starts with: blanks, and a brace that ends it, or the end of the text. */
    method MembersHead(bare: bool, ghost comma: bool) returns (ended: bool, closed: bool)
      requires off <= |text|
      modifies `off, `error
      ensures ended && !bare && !closed ==> error != NoError
      ensures old(off) <= off <= |text| && (closed ==> !bare && ended)
      ensures var r, cut := ReadMembers(text, flags, old(off), comma, bare), CutMembers(text, flags, old(off), comma, bare);
        if ended then !cut && r == (if bare || closed then Some(Read([], off, 0)) else None) && (bare ==> off == |text|)
        else
          off < |text| && !IsBlank(text[off]) && (!bare ==> text[off] != 0x7D) &&
          r == ReadMembers(text, flags, off, comma, bare) && cut == CutMembers(text, flags, off, comma, bare)
    {
      hide ReadMembers, ReadMember, CutMembers, CutMember;
      HeadStep(text, flags, off, comma, bare);
      ended := SkipAll();
      closed := false;
      if !bare {
        if ended {
          error := UnexpectedEof;
        } else if Src(off) == 0x7D {
          off := off + 1;
          ended, closed := true, true;
        }
      }
    }

    /** The loop over the members, up to a brace or, `bare`, the end of the text. */
    method MembersSize(bare: bool) returns (failed: bool)
      requires off <= |text|
      modifies `off, `dataSize, `error
      ensures failed ==> error != NoError
      ensures Sized(ReadMembers(text, flags, old(off), false, bare), CutMembers(text, flags, old(off), false, bare), failed, off, dataSize - old(dataSize), |text|)
      decreases |text| - off, 3
    {
      hide ReadEntry, ReadMembers, ReadMember, ReadValue, ReadHere, After, Before, CutMembers, CutMember, CutEntry;
      var size := |text|;
      var allowComma := false;
      var foundClosing := false;
      ghost var all, cut := ReadMembers(text, flags, off, false, bare), CutMembers(text, flags, off, false, bare);
      CutMembersStep(text, flags, off, false, bare);
      if off == size && !bare {
        MembersStep(text, flags, off, false, bare);
        error := UnexpectedEof;
        return true;
      }
      ghost var done: seq<Member> := [];
      AfterNothing(all);
      var again := true;
      while again
        invariant off <= size + 1 && (again ==> off <= size) && (!again ==> off >= size)
        invariant if off > size then all == None && cut
          else
            dataSize >= old(dataSize) && cut == CutMembers(text, flags, off, allowComma, bare) &&
            all == After(done, dataSize - old(dataSize), ReadMembers(text, flags, off, allowComma, bare))
        decreases if off <= size then size - off else 0, allowComma, again
      {
        var ended, closed := MembersHead(bare, allowComma);
        AfterEnd(done, dataSize - old(dataSize), off);
        if ended && !closed && !bare {
          return true;
        }
        if ended {
          foundClosing := closed;
          break;
        }
        if allowComma {
          var bad;
          bad, again := CommaSize(bare);
          if bad {
            return true;
          }
          if again {
            again, allowComma := off < size, false;
            continue;
          }
        }
        if !allowComma {
          MemberDue(text, flags, off, bare);
        }
        ghost var counted := dataSize - old(dataSize);
        var bad, member := MemberSize(bare);
        if bad {
          return true;
        }
        if off <= size {
          AfterBefore(done, counted, member, dataSize - old(dataSize) - counted, ReadMembers(text, flags, off, true, bare));
          done := done + [member];
        }
        allowComma := true;
        again := off < size;
      }
      if off == size && !foundClosing {
        MembersStep(text, flags, off, allowComma, bare);
        CutMembersStep(text, flags, off, allowComma, bare);
        AfterEnd(done, dataSize - old(dataSize), off);
      }
      if off == size && !bare && !foundClosing {
        error := UnexpectedEof;
        return true;
      }
      return false;
    }

    /** `jml_json_object_size`. */
    method ObjectSize(global: bool) returns (failed: bool)
      requires off <= |text|
      modifies `off, `dataSize, `error
      ensures failed ==> error != NoError
      ensures Sized(ReadObject(text, flags, old(off), global), CutObject(text, flags, old(off), global), failed, off, dataSize - old(dataSize), |text|)
      decreases |text| - off, 4
    {
      hide ReadMembers, CutMembers;
      var bare := global;
      if bare {
        var end := SkipAll();
        if !end && Src(off) == 0x7B {
          bare := false;
        }
      }
      if !bare {
        if Src(off) != 0x7B {
          error := Unknown;
          return true;
        }
        off := off + 1;
      }
      failed := MembersSize(bare);
    }

    /** What comes between two values of an array; `next` when the loop starts over before the second. */
    method ItemCommaSize() returns (failed: bool, next: bool)
      requires off < |text| && !IsBlank(text[off]) && text[off] != 0x5D
      modifies `off, `error
      ensures failed ==> error != NoError && ReadItems(text, flags, old(off), true) == None
      ensures !failed ==> old(off) <= off <= |text|
      ensures !failed && next ==> ReadItems(text, flags, old(off), true) == ReadItems(text, flags, off, false)
      ensures !failed && !next ==>
        off < |text| && !IsBlank(text[off]) && ReadItems(text, flags, old(off), true) == ReadItem(text, flags, off)
    {
      ItemsStep(text, flags, off, true);
      ItemsStep(text, flags, off, false);
      hide ReadItems, ReadItem;
      if Src(off) == 0x2C {
        off := off + 1;
      } else if !flags.noCommas {
        error := ExpectedClosing;
        return true, false;
      }
      if flags.trailingComma {
        return false, true;
      }
      var end := SkipAll();
      if end {
        error := UnexpectedEof;
        return true, false;
      }
      return false, false;
    }

    /** `jml_json_array_size`. */
    method ArraySize() returns (failed: bool)
      requires off < |text| && text[off] == 0x5B
      modifies `off, `dataSize, `error
      ensures failed ==> error != NoError
      ensures Sized(ReadItems(text, flags, old(off) + 1, false), false, failed, off, dataSize - old(dataSize), |text|)
      decreases |text| - off, 3
    {
      hide ReadItems, ReadItem, ReadValue, ReadHere, After, Before;
      var size := |text|;
      var allowComma := false;
      off := off + 1;
      ghost var all := ReadItems(text, flags, off, false);
      ghost var done: seq<Value> := [];
      AfterNothing(all);
      while off < size
        invariant old(off) < off <= size + 1
        invariant if off > size then all == None
          else
            dataSize >= old(dataSize) &&
            all == After(done, dataSize - old(dataSize), ReadItems(text, flags, off, allowComma))
        decreases if off <= size then size - off else 0, allowComma
      {
        ItemsSkip(text, flags, off, allowComma);
        var end := SkipAll();
        ItemsStep(text, flags, off, allowComma);
        AfterEnd(done, dataSize - old(dataSize), off);
        if end {
          error := UnexpectedEof;
          return true;
        }
        if Src(off) == 0x5D {
          off := off + 1;
          AfterEnd(done, dataSize - old(dataSize), off);
          return false;
        }
        if allowComma {
          var bad, next := ItemCommaSize();
          if bad {
            return true;
          }
          if next {
            allowComma := false;
            continue;
          }
        }
        ItemStep(text, flags, off);
        ghost var item := ReadValue(text, flags, off);
        ghost var counted := dataSize - old(dataSize);
        var bad := ValueSize(false);
        if bad {
          return true;
        }
        if item.Some? {
          AfterBefore(done, counted, item.value.value, item.value.room, ReadItems(text, flags, off, true));
          done := done + [item.value.value];
        }
        allowComma := true;
      }
      if off == size {
        ItemsStep(text, flags, off, allowComma);
        AfterEnd(done, dataSize - old(dataSize), off);
      }
      error := UnexpectedEof;
      return true;
    }

    /** `jml_json_value_size`. */
    method ValueSize(global: bool) returns (failed: bool)
      requires off <= |text|
      modifies `off, `dataSize, `error
      ensures failed ==> error != NoError
      ensures Sized(if global then ReadGlobal(text, flags, old(off)) else ReadValue(text, flags, old(off)),
                    if global then CutObject(text, flags, old(off), true) else CutValue(text, flags, old(off)), failed, off, dataSize - old(dataSize), |text|)
      decreases |text| - off, 5
    {
      if global {
        failed := ObjectSize(true);
        GlobalStep(text, flags, old(off));
      } else {
        ValueStep(text, flags, off);
        hide ReadHere, ReadMembers, ReadItems, ReadString, ReadNumber, ReadWord, ReadObject, ReadValue, CutHere, CutMembers, CutNumber;
        var end := SkipAll();
        if end {
          error := UnexpectedEof;
          return true;
        }
        HereStep(text, flags, off);
        CutHereStep(text, flags, off);
        var b := Src(off);
        if b == 0x22 {
          failed := StringSize();
        } else if b == 0x7B {
          ObjectHere(text, flags, off);
          failed := ObjectSize(false);
        } else if b == 0x5B {
          failed := ArraySize();
        } else if b == 0x2D || IsDigit(b) {
          NumberStep(text, flags, off);
          failed := NumberSize();
        } else if b == 0x2B || b == 0x2E {
          error := InvalidNumber;
          return true;
        } else {
          failed := WordSize();
        }
      }
    }

    /** `true`, `false` and `null`. */
    method WordSize() returns (failed: bool)
      requires off < |text|
      modifies `off, `error
      ensures failed ==> error != NoError
      ensures Sized(ReadWord(text, old(off)), false, failed, off, 0, |text|)
    {
      hide Has;
      if Has(text, off, TRUE) {
        off := off + 4;
        return false;
      } else if Has(text, off, FALSE) {
        off := off + 5;
        return false;
      } else if Has(text, off, NULL) {
        off := off + 4;
        return false;
      }
      error := InvalidValue;
      return true;
    }

    /* The second pass. What it returns for a bad string or key, a null pointer, is never returned. */

    /** `data[bytes_written++] = b`. */
    method Emit(written: nat, b: Byte) returns (more: nat)
      requires pos + written < data.Length
      modifies data
      ensures more == written + 1 && data[pos..pos + more] == old(data[pos..pos + written]) + [b]
    {
      data[pos + written] := b;
      more := written + 1;
    }

    method EmitTwo(written: nat, b0: Byte, b1: Byte) returns (more: nat)
      requires pos + written + 2 <= data.Length
      modifies data
      ensures more == written + 2 && data[pos..pos + more] == old(data[pos..pos + written]) + [b0, b1]
    {
      more := Emit(written, b0);
      more := Emit(more, b1);
    }

    /** The bytes of one escaped UTF-16 unit, or of a pair at its second half. */
    method UnitParse(from: nat, codepoint: nat, high: nat) returns (written: nat)
      requires codepoint < 0x1_0000 && !IsHigh(codepoint) && (IsLow(codepoint) <==> high != 0)
      requires high != 0 ==> IsHigh(high)
      requires pos + from + |UnitBytes(codepoint, high)| <= data.Length
      modifies data
      ensures written == from + |UnitBytes(codepoint, high)|
      ensures data[pos..pos + written] == old(data[pos..pos + from]) + UnitBytes(codepoint, high)
    {
      hide UnitBytes, First, Next, Fits;
      if codepoint <= 0x7F {
        UnitOne(codepoint);
        written := Emit(from, codepoint);
      } else if codepoint <= 0x7FF {
        UnitTwo(codepoint);
        var b0, b1 := First(0xC0, codepoint, 0x40), Next(codepoint, 1);
        written := EmitTwo(from, b0, b1);
      } else if 0xDC00 <= codepoint <= 0xDFFF {
        written := PairParse(from, high, codepoint);
      } else {
        UnitThree(codepoint);
        var b0, b1 := First(0xE0, codepoint, 0x1000), Next(codepoint, 0x40);
        var b2 := Next(codepoint, 1);
        written := EmitTwo(from, b0, b1);
        written := Emit(written, b2);
      }
    }

    /** The four bytes of a surrogate pair. */
    method PairParse(from: nat, high: nat, low: nat) returns (written: nat)
      requires IsHigh(high) && IsLow(low) && pos + from + |UnitBytes(low, high)| <= data.Length
      modifies data
      ensures written == from + |UnitBytes(low, high)|
      ensures data[pos..pos + written] == old(data[pos..pos + from]) + UnitBytes(low, high)
    {
      hide UnitBytes, First, Next, Fits;
      var c := high * 0x400 + low + SURROGATE_OFFSET;
      UnitFour(high, low);
      var b0, b1 := First(0xF0, c, 0x4_0000), Next(c, 0x1000);
      var b2, b3 := Next(c, 0x40), Next(c, 1);
      written := EmitTwo(from, b0, b1);
      written := EmitTwo(written, b2, b3);
    }

    /** One turn of the loop over the characters. */
    method CharParse(offset: nat, from: nat, high: nat) returns (next: nat, written: nat, half: nat)
      requires offset < |text| && text[offset] != 0x22 && (high != 0 ==> IsHigh(high))
      requires CharOf(text, offset, high).Some?
      requires pos + from + |CharOf(text, offset, high).value.value| <= data.Length
      modifies data
      ensures half != 0 ==>
        high == 0 && IsHigh(half) && text[offset] == 0x5C && next == offset + 6 < |text| && text[next] == 0x5C &&
        Char(text, offset) == LowHalf(text, next, half) &&
        written == from && data[pos..pos + from] == old(data[pos..pos + from])
      ensures half == 0 ==>
        var c := CharOf(text, offset, high).value;
        next == c.to && written == from + |c.value| &&
        data[pos..pos + written] == old(data[pos..pos + from]) + c.value
    {
      CharRules(text, offset);
      if high != 0 {
        LowRules(text, offset, high);
      }
      hide Char, LowHalf, Hex4, Encode, Pair;
      half := high;
      written := from;
      if Src(offset) == 0x5C {
        next := offset + 1;
        var c := Src(next);
        next := next + 1;
        if c == 0x75 {
          var code := HexValue(next);
          if code == None {
            assert false;
          }
          var codepoint := code.value;
          next := next + 4;
          if IsHigh(codepoint) {
            LowRules(text, next, codepoint);
            half := codepoint;
          } else {
            written := UnitParse(written, codepoint, half);
            half := 0;
          }
        } else {
          var letter := Letter(c);
          if letter == None {
            assert false;
          }
          written := Emit(written, letter.value);
        }
      } else {
        written := Emit(written, Src(offset));
        next := offset + 1;
      }
    }

    /** Ends what was written, moves the buffer position behind it, and copies it out. */
    method Finish(written: nat) returns (chars: seq<Byte>)
      requires pos + written < data.Length
      modifies `pos, data
      ensures pos == old(pos) + written + 1 && chars == old(data[pos..pos + written])
    {
      data[pos + written] := 0;
      pos := pos + written + 1;
      chars := data[pos - (written + 1)..pos - 1];
    }

    /** The same turn, inside a string known to end. */
    method InsideParse(ghost start: nat, ghost counted: nat, offset: nat, from: nat, high: nat)
      returns (next: nat, written: nat, half: nat, ghost more: nat)
      requires pos + from <= data.Length && Inside(text, start, data[pos..pos + from], counted, offset, high)
      requires offset < |text| && text[offset] != 0x22 && pos + Chars(text, start).value.room <= data.Length
      modifies data
      ensures offset < next < |text| && written < Chars(text, start).value.room
      ensures Inside(text, start, data[pos..pos + written], more, next, half)
    {
      hide Chars, CharOf, Inside, Char, LowHalf, IsHigh, Scanned;
      ghost var done := data[pos..pos + from];
      InsideTurn(text, start, done, counted, offset, high);
      next, written, half := CharParse(offset, from, high);
      ghost var now := data[pos..pos + written];
      more := InsideNext(text, start, done, counted, offset, high, next, now, half);
    }

    /** `jml_json_string_parse`. */
    method StringParse() returns (chars: seq<Byte>)
      requires off <= |text| && ReadString(text, off).Some?
      requires pos + ReadString(text, off).value.room <= data.Length
      modifies `off, `pos, data
      ensures var r := ReadString(text, old(off)).value;
        chars == r.value && off == r.to && old(pos) <= pos <= old(pos) + r.room
    {
      var offset := off;
      var written: nat := 0;
      var high: nat := 0;
      offset := offset + 1;
      ghost var start := offset;
      ghost var room := Chars(text, start).value.room;
      ghost var counted: nat := 0;
      assert data[pos..pos] == [];
      InsideStart(text, start);
      hide Chars, Inside;
      while Src(offset) != 0x22
        invariant pos == old(pos) && off == old(off) && pos + room <= data.Length
        invariant offset < |text| && written < room
        invariant Inside(text, start, data[pos..pos + written], counted, offset, high)
        decreases |text| - offset
      {
        offset, written, high, counted := InsideParse(start, counted, offset, written, high);
      }
      InsideEnd(text, start, data[pos..pos + written], counted, offset, high);
      off := offset + 1;
      chars := Finish(written);
    }

    /** `jml_json_key_parse`; the position in the buffer is left on the NUL of a bare key. */
    method KeyParse() returns (key: seq<Byte>)
      requires off < |text| && text[off] != 0x27 && ReadKey(text, flags, off).Some?
      requires pos + ReadKey(text, flags, off).value.room <= data.Length
      modifies `off, `pos, data
      ensures var r := ReadKey(text, flags, old(off)).value;
        key == r.value && off == r.to && old(pos) <= pos <= old(pos) + r.room
    {
      if flags.unquotedKeys {
        if Src(off) == 0x22 || Src(off) == 0x27 {
          key := StringParse();
        } else {
          var offset := off;
          var size: nat := 0;
          while IsIdent(Src(offset))
            invariant off == old(off) && pos == old(pos)
            invariant off <= offset <= |text| && size == offset - off
            invariant IdentEnd(text, off) == IdentEnd(text, offset)
            invariant data[pos..pos + size] == text[off..offset]
            decreases |text| - offset
          {
            assert text[off..offset + 1] == text[off..offset] + [Src(offset)];
            size := Emit(size, Src(offset));
            offset := offset + 1;
          }
          data[pos + size] := 0;
          key := data[pos..pos + size];
          pos := pos + size;
          off := offset;
        }
      } else {
        key := StringParse();
      }
    }

    /** `jml_json_number_parse`: the text handed to `strtod`. */
    method NumberParse() returns (digits: seq<Byte>)
      requires off < |text| && (text[off] == 0x2D || IsDigit(text[off]))
      requires NumberEnd(text, flags, off).Some?
      requires pos + (NumberEnd(text, flags, off).value - off) + 1 <= data.Length
      modifies `off, `pos, data
      ensures var e := NumberEnd(text, flags, old(off)).value;
        digits == text[old(off)..e] && off == e && pos == old(pos) + (e - old(off)) + 1
    {
      var offset := off;
      var written: nat := 0;
      ghost var end := NumberEnd(text, flags, off).value;
      NumberText(text, flags, off);
      hide NumberEnd;
      while offset < |text| && IsNumeric(Src(offset))
        invariant off == old(off) && pos == old(pos)
        invariant off <= offset <= end && written == offset - off
        invariant data[pos..pos + written] == text[off..offset]
        decreases |text| - offset
      {
        assert text[off..offset + 1] == text[off..offset] + [Src(offset)];
        written := Emit(written, Src(offset));
        offset := offset + 1;
      }
      digits := Finish(written);
      off := offset;
    }

    /** `jml_gc_exempt_push`, which does not look whether there is a place left. */
    method ExemptPush()
      modifies `exempted, `deepest
      ensures exempted == old(exempted) + 1 && deepest == Larger(old(deepest), exempted)
    {
      exempted := exempted + 1;
      deepest := Larger(deepest, exempted);
    }

    method ExemptPop()
      requires exempted > 0
      modifies `exempted
      ensures exempted == old(exempted) - 1
    {
      exempted := exempted - 1;
    }

    /** `jml_obj_array_append` roots the value itself. */
    method Append()
      modifies `exempted, `deepest
      ensures exempted == old(exempted) && deepest == Larger(old(deepest), exempted + 1)
    {
      ExemptPush();
      ExemptPop();
    }

    method ColonParse()
      requires off <= |text| && ReadColon(text, flags, off).Some?
      modifies `off, `error
      ensures off == ReadColon(text, flags, old(off)).value
    {
      var _ := SkipAll();
      off := off + 1;
    }

    /** One member: the part of the loop of `jml_json_object_parse` after the comma. */
    method EntryParse() returns (member: Member)
      requires off < |text| && ReadEntry(text, flags, off).Some? && exempted <= deepest
      requires pos + ReadEntry(text, flags, off).value.room <= data.Length
      modifies `off, `pos, `error, `exempted, `deepest, data
      ensures var r := ReadEntry(text, flags, old(off)).value;
        member == r.value && off == r.to && old(pos) <= pos <= old(pos) + r.room
      ensures exempted == old(exempted) && deepest == Larger(old(deepest), exempted + Places(member.value))
      decreases |text| - off, 1
    {
      EntryStep(text, flags, off);
      EntryStart(text, flags, off);
      hide ReadKey, ReadValue, ReadEntry, ReadHere, ReadColon;
      var key := KeyParse();
      ColonParse();
      ValueSkip(text, flags, off);
      var _ := SkipAll();
      var value := ValueParse(false);
      member := Member(key, value);
    }

    /** The loop of `jml_json_object_parse`; the members are set in the map in this order. */
    method MembersParse(bare: bool) returns (members: seq<Member>)
      requires off <= |text| && ReadMembers(text, flags, off, false, bare).Some? && 0 < exempted <= deepest
      requires pos + ReadMembers(text, flags, off, false, bare).value.room <= data.Length
      modifies `off, `pos, `error, `exempted, `deepest, data
      ensures var r := ReadMembers(text, flags, old(off), false, bare).value;
        members == r.value && off == r.to && old(pos) <= pos <= old(pos) + r.room
      ensures exempted == old(exempted) && deepest == Larger(old(deepest), exempted - 1 + PlacesOfMembers(members))
      decreases |text| - off, 2
    {
      hide ReadEntry, ReadMembers, ReadMember, ReadValue, ReadHere, After, Before, PlacesOfMembers, Places;
      var size := |text|;
      var allowComma := false;
      ghost var all := ReadMembers(text, flags, off, false, bare);
      ghost var used: nat := 0;
      members := [];
      AfterNothing(all);
      NoMembers();
      while off < size
        invariant old(off) <= off <= size && exempted == old(exempted)
        invariant deepest == Larger(old(deepest), exempted - 1 + PlacesOfMembers(members))
        invariant all == After(members, used, ReadMembers(text, flags, off, allowComma, bare))
        invariant old(pos) <= pos <= old(pos) + used
        decreases size - off
      {
        MembersSkip(text, flags, off, allowComma, bare);
        var end := SkipAll();
        AfterRoom(members, used, ReadMembers(text, flags, off, allowComma, bare));
        MembersStep(text, flags, off, allowComma, bare);
        AfterEnd(members, used, off);
        if !bare {
          if Src(off) == 0x7D {
            off := off + 1;
            AfterEnd(members, used, off);
            return;
          }
        } else if end {
          return;
        }
        if allowComma && Src(off) == 0x2C {
          MemberAfterComma(text, flags, off + 1, bare);
          off := off + 1;
          allowComma := false;
          continue;
        }
        ghost var entry := ReadEntry(text, flags, off);
        MemberStep(text, flags, off, bare);
        AfterBefore(members, used, entry.value.value, entry.value.room, ReadMembers(text, flags, entry.value.to, true, bare));
        AfterRoom(members + [entry.value.value], used + entry.value.room, ReadMembers(text, flags, entry.value.to, true, bare));
        var member := EntryParse();
        ExemptPush();
        OneMemberMore(members, member);
        members := members + [member];
        ExemptPop();
        used := used + entry.value.room;
        allowComma := true;
      }
      MembersStep(text, flags, off, allowComma, bare);
      AfterEnd(members, used, off);
    }

    /** `jml_json_object_parse`. */
    method ObjectParse(global: bool) returns (members: seq<Member>)
      requires off <= |text| && !IsBlank(At(text, off)) && ReadObject(text, flags, off, global).Some? && exempted <= deepest
      requires pos + ReadObject(text, flags, off, global).value.room <= data.Length
      modifies `off, `pos, `error, `exempted, `deepest, data
      ensures var r := ReadObject(text, flags, old(off), global).value;
        members == r.value && off == r.to && old(pos) <= pos <= old(pos) + r.room
      ensures exempted == old(exempted) && deepest == Larger(old(deepest), exempted + PlacesOfMembers(members))
      decreases |text| - off, 3
    {
      hide ReadMembers, PlacesOfMembers;
      var bare := global;
      if bare {
        if Src(off) == 0x7B {
          bare := false;
        }
      }
      if !bare {
        off := off + 1;
      }
      MembersSkip(text, flags, off, false, bare);
      var _ := SkipAll();
      ExemptPush();
      members := MembersParse(bare);
      ExemptPop();
      SomePlaces(members);
    }

    /** `jml_json_array_parse`. */
    method ArrayParse() returns (items: seq<Value>)
      requires off < |text| && text[off] == 0x5B && ReadItems(text, flags, off + 1, false).Some? && exempted <= deepest
      requires pos + ReadItems(text, flags, off + 1, false).value.room <= data.Length
      modifies `off, `pos, `error, `exempted, `deepest, data
      ensures var r := ReadItems(text, flags, old(off) + 1, false).value;
        items == r.value && off == r.to && old(pos) <= pos <= old(pos) + r.room
      ensures exempted == old(exempted) && deepest == Larger(old(deepest), exempted + PlacesOfItems(items))
      decreases |text| - off, 3
    {
      off := off + 1;
      ItemsSkip(text, flags, off, false);
      var _ := SkipAll();
      ExemptPush();
      items := ItemsParse();
      ExemptPop();
      SomeItems(items);
    }

    /** The loop of `jml_json_array_parse`. */
    method ItemsParse() returns (items: seq<Value>)
      requires off <= |text| && ReadItems(text, flags, off, false).Some? && 0 < exempted <= deepest
      requires pos + ReadItems(text, flags, off, false).value.room <= data.Length
      modifies `off, `pos, `error, `exempted, `deepest, data
      ensures var r := ReadItems(text, flags, old(off), false).value;
        items == r.value && off == r.to && old(pos) <= pos <= old(pos) + r.room
      ensures exempted == old(exempted) && deepest == Larger(old(deepest), exempted - 1 + PlacesOfItems(items))
      decreases |text| - off, 6
    {
      hide ReadItems, ReadItem, ReadValue, ReadHere, After, Before, PlacesOfItems, Places;
      var size := |text|;
      var allowComma := false;
      ghost var all := ReadItems(text, flags, off, false);
      ghost var used: nat := 0;
      items := [];
      AfterNothing(all);
      NoItems();
      var again := true;
      while again
        invariant old(off) <= off <= size && exempted == old(exempted)
        invariant deepest == Larger(old(deepest), exempted - 1 + PlacesOfItems(items))
        invariant all == After(items, used, ReadItems(text, flags, off, allowComma))
        invariant old(pos) <= pos <= old(pos) + used
        invariant again || off == size
        decreases size - off, again
      {
        ItemsSkip(text, flags, off, allowComma);
        var _ := SkipAll();
        AfterRoom(items, used, ReadItems(text, flags, off, allowComma));
        ItemsStep(text, flags, off, allowComma);
        AfterEnd(items, used, off);
        if Src(off) == 0x5D {
          off := off + 1;
          AfterEnd(items, used, off);
          return;
        }
        if allowComma && Src(off) == 0x2C {
          ItemAfterComma(text, flags, off + 1);
          off := off + 1;
          allowComma := false;
          again := off < size;
          continue;
        }
        ghost var item := ReadValue(text, flags, off);
        ItemStep(text, flags, off);
        AfterBefore(items, used, item.value.value, item.value.room, ReadItems(text, flags, item.value.to, true));
        AfterRoom(items + [item.value.value], used + item.value.room, ReadItems(text, flags, item.value.to, true));
        var value := ValueParse(false);
        ExemptPush();
        Append();
        OneItemMore(items, value);
        items := items + [value];
        ExemptPop();
        used := used + item.value.room;
        allowComma := true;
        again := off < size;
      }
      ItemsStep(text, flags, off, allowComma);
      AfterEnd(items, used, off);
    }

    /** `jml_json_value_parse`. */
    method ValueParse(global: bool) returns (value: Value)
      requires off <= |text| && (if global then ReadGlobal(text, flags, off) else ReadValue(text, flags, off)).Some?
      requires pos + (if global then ReadGlobal(text, flags, off) else ReadValue(text, flags, off)).value.room <= data.Length
      requires exempted <= deepest
      modifies `off, `pos, `error, `exempted, `deepest, data
      ensures var r := (if global then ReadGlobal(text, flags, old(off)) else ReadValue(text, flags, old(off))).value;
        value == r.value && off == r.to && old(pos) <= pos <= old(pos) + r.room
      ensures exempted == old(exempted) && deepest == Larger(old(deepest), exempted + Places(value))
      decreases |text| - off, 5
    {
      hide ReadMembers, ReadItems, ReadGlobal, ReadValue, ReadObject, ReadHere, PlacesOfItems, PlacesOfMembers, Larger;
      if global {
        GlobalStep(text, flags, off);
        ObjectSkip(text, flags, off);
        var _ := SkipAll();
        var offset := off;
        var members := ObjectParse(true);
        return Value(offset, off, Map(members));
      }
      ValueStep(text, flags, off);
      var _ := SkipAll();
      value := HereParse();
    }

    /** The cases of `jml_json_value_parse`, behind what is skipped. */
    method HereParse() returns (value: Value)
      requires off < |text| && !IsBlank(text[off]) && ReadHere(text, flags, off).Some?
      requires pos + ReadHere(text, flags, off).value.room <= data.Length && exempted <= deepest
      modifies `off, `pos, `error, `exempted, `deepest, data
      ensures var r := ReadHere(text, flags, old(off)).value;
        value == r.value && off == r.to && old(pos) <= pos <= old(pos) + r.room
      ensures exempted == old(exempted) && deepest == Larger(old(deepest), exempted + Places(value))
      decreases |text| - off, 4
    {
      hide ReadMembers, ReadItems, ReadString, ReadNumber, ReadObject, ReadHere, ReadWord, PlacesOfItems, PlacesOfMembers;
      var offset := off;
      HereStep(text, flags, off);
      var b := Src(offset);
      if b == 0x22 || b == 0x27 {
        var chars := StringParse();
        value := Value(offset, off, Text(chars));
      } else if b == 0x7B {
        ObjectHere(text, flags, off);
        var members := ObjectParse(false);
        value := Value(offset, off, Map(members));
      } else if b == 0x5B {
        var items := ArrayParse();
        value := Value(offset, off, Array(items));
      } else if b == 0x2D || b == 0x2B || IsDigit(b) || b == 0x2E {
        NumberStep(text, flags, off);
        var digits := NumberParse();
        value := Value(offset, off, Number(digits));
      } else {
        value := WordParse();
      }
    }

    method WordParse() returns (value: Value)
      requires off < |text| && ReadWord(text, off).Some?
      modifies `off
      ensures value == ReadWord(text, old(off)).value.value && off == ReadWord(text, old(off)).value.to
      ensures value.data.Truth? || value.data.Nothing?
    {
      hide Has;
      var offset := off;
      if Has(text, off, TRUE) {
        off := off + 4;
        value := Value(offset, off, Truth(true));
      } else if Has(text, off, FALSE) {
        off := off + 5;
        value := Value(offset, off, Truth(false));
      } else {
        off := off + 4;
        value := Value(offset, off, Nothing);
      }
    }
  }

  /**
    How a call ends; `ReadPast` when a byte behind the terminator of the text was looked at,
    `RootedPast` when an object was rooted behind the last place of the exempt stack.
   */
  datatype Parsed = Parsed(value: Value) | Rejected(error: Error) | ReadPast | RootedPast

  /**
    `jml_json_parse`, with `exempted` places of the exempt stack in use. It succeeds on exactly
    the texts of the grammar, with the value and the spans the grammar gives, if there are
    places enough for the value, and stays inside the text and its terminator exactly if the
    text is not cut off in an exponent; the buffer has the size the first pass counted.
   */
  method Parse(text: seq<Byte>, flags: Flags, exempted: nat) returns (p: Parsed)
    requires exempted <= EXEMPT_MAX
    ensures var r := ReadText(text, flags);
      if r.Some? then
        p == if exempted + Places(r.value.value) <= EXEMPT_MAX then Parsed(r.value.value) else RootedPast
      else if CutText(text, flags) then p == ReadPast
      else p.Rejected? && p.error != NoError
  {
    hide ReadGlobal, ReadValue, CutMembers, CutHere, Places;
    var parser := new Reader(text, flags, exempted);
    CutTop(text, flags);
    CutTextIsNone(text, flags);
    var inputError := parser.ValueSize(flags.global);
    if !inputError {
      if parser.off > |text| {
        return ReadPast;
      }
      var _ := parser.SkipAll();
      if parser.off != |text| {
        parser.error := UnexpectedChars;
        inputError := true;
      }
    }
    if inputError {
      return Rejected(parser.error);
    }
    parser.off := 0;
    parser.data := new Byte[parser.dataSize];
    var v := parser.ValueParse(flags.global);
    return if parser.deepest > EXEMPT_MAX then RootedPast else Parsed(v);
  }

  /** What is cut off cannot be read. */
  lemma {:induction false} CutHereIsNone(t: seq<Byte>, m: Flags, i: nat)
    requires i < |t| && CutHere(t, m, i)
    ensures ReadHere(t, m, i) == None
    decreases |t| - i, 0
  {
    hide CutMembers, ReadMembers, ReadString, ReadItems, CutExponent, Exponent;
    if t[i] == 0x7B {
      CutMembersIsNone(t, m, i + 1, false, false);
    } else {
      CutIsNone(t, Fraction(t, Whole(t, i).value).value);
    }
  }

  lemma {:induction false} CutMembersIsNone(t: seq<Byte>, m: Flags, from: nat, comma: bool, global: bool)
    requires from <= |t| && CutMembers(t, m, from, comma, global)
    ensures ReadMembers(t, m, from, comma, global) == None
    decreases |t| - from, if comma then 4 else 3
  {
    hide CutMember, ReadMember;
    var i := Skip(t, from);
    if !comma || t[i] != 0x2C {
      CutMemberIsNone(t, m, i, global);
    } else if m.trailingComma {
      CutMembersIsNone(t, m, i + 1, false, global);
    } else {
      CutMemberIsNone(t, m, Skip(t, i + 1), global);
    }
  }

  lemma {:induction false} CutMemberIsNone(t: seq<Byte>, m: Flags, i: nat, global: bool)
    requires i < |t| && CutMember(t, m, i, global)
    ensures ReadMember(t, m, i, global) == None
    decreases |t| - i, 2
  {
    hide CutMembers, ReadMembers, CutEntry, ReadEntry;
    var e := ReadEntry(t, m, i);
    if e.Some? {
      CutMembersIsNone(t, m, e.value.to, true, global);
    }
  }

  lemma CutTextIsNone(t: seq<Byte>, m: Flags)
    ensures CutText(t, m) ==> (if m.global then ReadGlobal(t, m, 0) else ReadValue(t, m, 0)) == None
  {
    hide CutMembers, CutHere, ReadMembers, ReadHere;
    if CutText(t, m) {
      var i := Skip(t, 0);
      if m.global && At(t, i) != 0x7B {
        CutMembersIsNone(t, m, i, false, true);
      } else {
        CutHereIsNone(t, m, i);
      }
    }
  }

  lemma CutTop(t: seq<Byte>, m: Flags)
    ensures CutText(t, m) == if m.global then CutObject(t, m, 0, true) else CutValue(t, m, 0)
  {
    hide CutMembers;
  }

  /** What stands at a position, by its first byte. */
  lemma HereStep(t: seq<Byte>, m: Flags, i: nat)
    requires i < |t|
    ensures t[i] == 0x22 ==> ReadHere(t, m, i) == AsText(i, ReadString(t, i))
    ensures t[i] == 0x7B ==> ReadHere(t, m, i) == AsMap(i, ReadMembers(t, m, i + 1, false, false))
    ensures t[i] == 0x5B ==> ReadHere(t, m, i) == AsArray(i, ReadItems(t, m, i + 1, false))
    ensures t[i] == 0x2D || IsDigit(t[i]) ==> ReadHere(t, m, i) == ReadNumber(t, m, i)
    ensures t[i] != 0x22 && t[i] != 0x7B && t[i] != 0x5B && t[i] != 0x2D && !IsDigit(t[i]) ==>
      ReadHere(t, m, i) == ReadWord(t, i)
    ensures t[i] == 0x27 || t[i] == 0x2B || t[i] == 0x2E ==> ReadHere(t, m, i) == None
  {
    hide ReadMembers, ReadItems, ReadString, ReadNumber;
    if ReadWord(t, i).Some? {
      WordStart(t, i);
    }
  }

  lemma WordStart(t: seq<Byte>, i: nat)
    requires i < |t| && ReadWord(t, i).Some?
    ensures t[i] == 0x74 || t[i] == 0x66 || t[i] == 0x6E
  {
    if Has(t, i, TRUE) {
      assert t[i..i + 4][0] == t[i];
    } else if Has(t, i, FALSE) {
      assert t[i..i + 5][0] == t[i];
    } else {
      assert t[i..i + 4][0] == t[i];
    }
  }

  lemma NumberStep(t: seq<Byte>, m: Flags, i: nat)
    requires i < |t| && (t[i] == 0x2D || IsDigit(t[i]))
    ensures ReadNumber(t, m, i) ==
      var e := NumberEnd(t, m, i);
      if e == None then None else Some(Read(Value(i, e.value, Number(t[i..e.value])), e.value, e.value - i + 1))
  {
  }

  lemma ObjectSkip(t: seq<Byte>, m: Flags, from: nat)
    requires from <= |t|
    ensures ReadObject(t, m, Skip(t, from), true) == ReadObject(t, m, from, true)
  {
    hide ReadMembers;
  }

  lemma ObjectHere(t: seq<Byte>, m: Flags, i: nat)
    requires i < |t| && t[i] == 0x7B
    ensures ReadObject(t, m, i, false) == ReadMembers(t, m, i + 1, false, false)
  {
    hide ReadMembers;
  }

  lemma ItemAfterComma(t: seq<Byte>, m: Flags, i: nat)
    requires i <= |t|
    requires !m.trailingComma ==> Skip(t, i) < |t| && ReadItem(t, m, Skip(t, i)).Some?
    ensures !m.trailingComma ==> ReadItems(t, m, i, false) == ReadItem(t, m, Skip(t, i))
  {
    if !m.trailingComma {
      ItemsStep(t, m, i, false);
      if t[Skip(t, i)] == 0x5D {
        BracketIsNoValue(t, m, Skip(t, i));
      }
    }
    hide ReadItems, ReadHere;
  }

  lemma BracketIsNoValue(t: seq<Byte>, m: Flags, i: nat)
    requires i < |t| && t[i] == 0x5D
    ensures ReadHere(t, m, i) == None
  {
  }

  lemma AfterRoom<T>(done: seq<T>, room: nat, rest: Option<Read<seq<T>>>)
    requires After(done, room, rest).Some?
    ensures rest.Some? && After(done, room, rest).value.room == room + rest.value.room
    ensures After(done, room, rest).value.to == rest.value.to
  {
  }

  /** Neither a closing brace nor a single quote starts a member. */
  lemma EntryStart(t: seq<Byte>, m: Flags, i: nat)
    requires i < |t| && ReadEntry(t, m, i).Some?
    ensures t[i] != 0x7D && t[i] != 0x27
  {
    hide ReadValue;
  }

  /** Where a member is due after a comma, no brace can stand. */
  lemma MemberAfterComma(t: seq<Byte>, m: Flags, i: nat, bare: bool)
    requires i <= |t|
    requires !m.trailingComma ==> Skip(t, i) < |t| && ReadMember(t, m, Skip(t, i), bare).Some?
    ensures !m.trailingComma ==> ReadMembers(t, m, i, false, bare) == ReadMember(t, m, Skip(t, i), bare)
  {
    if !m.trailingComma {
      EntryStart(t, m, Skip(t, i));
      MembersStep(t, m, i, false, bare);
    }
    hide ReadEntry, ReadMembers;
  }

  /** The bytes the second pass takes to belong to a number. */
  predicate IsNumeric(b: Byte) {
    IsDigit(b) || b == 0x2E || b == 0x65 || b == 0x45 || b == 0x2B || b == 0x2D
  }

  predicate Numeric(t: seq<Byte>, i: nat, e: nat) {
    e <= |t| && forall k :: i <= k < e ==> IsNumeric(t[k])
  }

  lemma WholeText(t: seq<Byte>, i: nat)
    requires i < |t| && Whole(t, i).Some?
    ensures Numeric(t, i, Whole(t, i).value)
  {
    var a := if t[i] == 0x2D then i + 1 else i;
    assert forall k :: a <= k < Digits(t, a) ==> IsDigit(At(t, k));
    assert forall k :: a <= k < Digits(t, a) ==> At(t, k) == t[k];
  }

  lemma FractionText(t: seq<Byte>, i: nat)
    requires i <= |t| && Fraction(t, i).Some?
    ensures Numeric(t, i, Fraction(t, i).value)
  {
    var e := Digits(t, i + 1);
    assert forall k :: i + 1 <= k < e ==> IsDigit(At(t, k));
    assert e <= |t| ==> forall k :: i + 1 <= k < e ==> At(t, k) == t[k];
  }

  lemma ExponentText(t: seq<Byte>, i: nat)
    requires i <= |t| && Exponent(t, i).Some?
    ensures Numeric(t, i, Exponent(t, i).value)
  {
    var a := if At(t, i + 1) == 0x2D || At(t, i + 1) == 0x2B then i + 2 else i + 1;
    var e := Digits(t, a);
    assert forall k :: a <= k < e ==> IsDigit(At(t, k));
    assert e <= |t| ==> forall k :: a <= k < e ==> At(t, k) == t[k];
  }

  /** A number is a longest run of such bytes. */
  lemma NumberText(t: seq<Byte>, m: Flags, i: nat)
    requires i < |t| && NumberEnd(t, m, i).Some?
    ensures var e := NumberEnd(t, m, i).value; Numeric(t, i, e) && !IsNumeric(At(t, e))
  {
    var w := Whole(t, i).value;
    WholeText(t, i);
    FractionText(t, w);
    ExponentText(t, Fraction(t, w).value);
    hide Whole, Fraction, Exponent;
  }

  /** The constant added to the halves of a pair, computed in 32 bits and so wrapped round. */
  const SURROGATE_OFFSET: nat := (0x1_0000 - 0xD800 * 0x400 - 0xDC00) % 0x1_0000_0000

  /** `(char)(tag | (v >> k))` for `d` two to the power `k`: only the low eight bits are kept. */
  function First(tag: Byte, v: nat, d: nat): Byte
    requires d > 0 && Fits(tag, v, d)
  {
    Tag(tag, v / d % 256)
  }

  predicate Fits(tag: Byte, v: nat, d: nat)
    requires d > 0
  {
    (tag == 0xC0 || tag == 0xE0 || tag == 0xF0) && v / d % 256 < if tag == 0xC0 then 0x20 else 0x10
  }

  /** `(char)(0x80 | ((v >> k) & 0x3f))`. */
  function Next(v: nat, d: nat): Byte
    requires d > 0
  {
    Tag(0x80, v / d % 0x40)
  }

  function UnitBytes(codepoint: nat, high: nat): seq<Byte>
    requires high != 0 ==> IsHigh(high) && IsLow(codepoint)
  {
    Encode(if high == 0 then codepoint else Pair(high, codepoint))
  }

  lemma Quotient(c: nat, p: nat, d: nat, k: nat)
    requires d > 0 && c == p + d * k
    ensures c / d == p / d + k && c % d == p % d
  {
    Divides(c, d, p / d + k, p % d);
  }

  /** Adding the wrapped offset sets one bit above all those a byte is taken from. */
  lemma Wrapped(high: nat, low: nat)
    requires IsHigh(high) && IsLow(low)
    ensures var c, p := high * 0x400 + low + SURROGATE_OFFSET, Pair(high, low);
      0x1_0000 <= p <= 0x10_FFFF && Fits(0xF0, p, 0x4_0000) && Fits(0xF0, c, 0x4_0000) &&
      First(0xF0, c, 0x4_0000) == First(0xF0, p, 0x4_0000) && Next(c, 0x1000) == Next(p, 0x1000) &&
      Next(c, 0x40) == Next(p, 0x40) && Next(c, 1) == Next(p, 1)
  {
    var c, p := high * 0x400 + low + SURROGATE_OFFSET, Pair(high, low);
    Quotient(c, p, 0x4_0000, 0x4000);
    Quotient(c / 0x4_0000, p / 0x4_0000, 256, 64);
    Quotient(c, p, 0x1000, 0x10_0000);
    Quotient(c / 0x1000, p / 0x1000, 0x40, 0x4000);
    Quotient(c, p, 0x40, 0x400_0000);
    Quotient(c / 0x40, p / 0x40, 0x40, 0x10_0000);
  }

  lemma UnitOne(v: nat)
    requires v <= 0x7F
    ensures UnitBytes(v, 0) == [v]
  {
    EncodeTable(v);
  }

  lemma UnitTwo(v: nat)
    requires 0x7F < v <= 0x7FF
    ensures Fits(0xC0, v, 0x40) && UnitBytes(v, 0) == [First(0xC0, v, 0x40), Next(v, 1)]
  {
    EncodeTable(v);
  }

  lemma UnitThree(v: nat)
    requires 0x7FF < v <= 0xFFFF
    ensures Fits(0xE0, v, 0x1000) && UnitBytes(v, 0) == [First(0xE0, v, 0x1000), Next(v, 0x40), Next(v, 1)]
  {
    EncodeTable(v);
    Nested(v);
    hide Encode;
  }

  lemma FourParts(p: nat)
    requires 0x1_0000 <= p <= 0x10_FFFF
    ensures Fits(0xF0, p, 0x4_0000)
    ensures Encode(p) == [First(0xF0, p, 0x4_0000), Next(p, 0x1000), Next(p, 0x40), Next(p, 1)]
  {
    EncodeTable(p);
    Nested(p);
    hide Encode;
  }

  lemma UnitFour(high: nat, low: nat)
    requires IsHigh(high) && IsLow(low)
    ensures var c := high * 0x400 + low + SURROGATE_OFFSET;
      Fits(0xF0, c, 0x4_0000) &&
      UnitBytes(low, high) == [First(0xF0, c, 0x4_0000), Next(c, 0x1000), Next(c, 0x40), Next(c, 1)]
  {
    var c, p := high * 0x400 + low + SURROGATE_OFFSET, Pair(high, low);
    Wrapped(high, low);
    FourParts(p);
    hide Encode, Pair;
  }

  /** `cut`: the first pass goes on past the end of the text without noticing. */
  predicate Sized<T>(r: Option<Read<T>>, cut: bool, failed: bool, off: nat, grown: int, size: nat) {
    if r.Some? then !failed && off == r.value.to && grown == r.value.room
    else if cut then !failed && off == size + 1
    else failed
  }

  predicate CutValue(t: seq<Byte>, m: Flags, from: nat)
    requires from <= |t|
  {
    Skip(t, from) < |t| && CutHere(t, m, Skip(t, from))
  }

  predicate CutObject(t: seq<Byte>, m: Flags, from: nat, global: bool)
    requires from <= |t|
  {
    var i := if global then Skip(t, from) else from;
    if i < |t| && t[i] == 0x7B then CutMembers(t, m, i + 1, false, false)
    else global && CutMembers(t, m, i, false, true)
  }

  lemma CutIsNone(t: seq<Byte>, i: nat)
    requires i <= |t|
    ensures CutExponent(t, i) ==> Exponent(t, i) == None
  {
  }

  /** What stands at a position, by its first byte. */
  lemma CutHereStep(t: seq<Byte>, m: Flags, i: nat)
    requires i < |t|
    ensures CutHere(t, m, i) ==
      if t[i] == 0x7B then CutMembers(t, m, i + 1, false, false) else (t[i] == 0x2D || IsDigit(t[i])) && CutNumber(t, i)
  {
    hide CutMembers, CutNumber;
  }

  lemma CutEntryStep(t: seq<Byte>, m: Flags, i: nat)
    requires i < |t|
    ensures CutEntry(t, m, i) ==
      var key := ReadKey(t, m, i);
      key.Some? && ReadColon(t, m, key.value.to).Some? && CutValue(t, m, ReadColon(t, m, key.value.to).value)
  {
    hide CutHere, ReadKey;
  }

  lemma CutMembersStep(t: seq<Byte>, m: Flags, from: nat, comma: bool, global: bool)
    requires from <= |t|
    ensures CutMembers(t, m, from, comma, global) ==
      var i := Skip(t, from);
      if i == |t| || (!global && t[i] == 0x7D) then false
      else if !comma then CutMember(t, m, i, global)
      else if t[i] == 0x2C then
        (if m.trailingComma then CutMembers(t, m, i + 1, false, global)
         else Skip(t, i + 1) < |t| && CutMember(t, m, Skip(t, i + 1), global))
      else m.noCommas && CutMember(t, m, i, global)
  {
    hide CutMember;
  }

  lemma CutMemberStep(t: seq<Byte>, m: Flags, i: nat, global: bool)
    requires i < |t|
    ensures CutMember(t, m, i, global) ==
      var e := ReadEntry(t, m, i);
      if e.Some? then CutMembers(t, m, e.value.to, true, global) else CutEntry(t, m, i)
  {
    hide ReadEntry, CutMembers, CutEntry;
  }

  /** What the brace, or in the global form its absence, leads to. */
  function ReadObject(t: seq<Byte>, m: Flags, from: nat, global: bool): Option<Read<seq<Member>>>
    requires from <= |t|
  {
    var i := if global then Skip(t, from) else from;
    if i < |t| && t[i] == 0x7B then ReadMembers(t, m, i + 1, false, false)
    else if global then ReadMembers(t, m, i, false, true)
    else None
  }

  function After<T>(done: seq<T>, room: nat, rest: Option<Read<seq<T>>>): Option<Read<seq<T>>> {
    if rest == None then None
    else Some(Read(done + rest.value.value, rest.value.to, room + rest.value.room))
  }

  lemma AfterNothing<T>(rest: Option<Read<seq<T>>>)
    ensures After([], 0, rest) == rest
  {
    assert rest.Some? ==> [] + rest.value.value == rest.value.value;
  }

  lemma AfterBefore<T>(done: seq<T>, room: nat, x: T, more: nat, rest: Option<Read<seq<T>>>)
    ensures After(done, room, Before(x, more, rest)) == After(done + [x], room + more, rest)
  {
    assert rest.Some? ==> done + ([x] + rest.value.value) == done + [x] + rest.value.value;
  }

  lemma AfterEnd<T>(done: seq<T>, room: nat, to: nat)
    ensures After(done, room, Some(Read([], to, 0))) == Some(Read(done, to, room))
    ensures After(done, room, None) == None
  {
    assert done + [] == done;
  }

  lemma ItemsStep(t: seq<Byte>, m: Flags, from: nat, comma: bool)
    requires from <= |t|
    ensures ReadItems(t, m, from, comma) ==
      var i := Skip(t, from);
      if i == |t| then None
      else if t[i] == 0x5D then Some(Read([], i + 1, 0))
      else if !comma then ReadItem(t, m, i)
      else if t[i] == 0x2C then
        (if m.trailingComma then ReadItems(t, m, i + 1, false)
         else if Skip(t, i + 1) == |t| then None
         else ReadItem(t, m, Skip(t, i + 1)))
      else if m.noCommas then ReadItem(t, m, i)
      else None
  {
    hide ReadItem;
  }

  lemma ItemsSkip(t: seq<Byte>, m: Flags, from: nat, comma: bool)
    requires from <= |t|
    ensures ReadItems(t, m, Skip(t, from), comma) == ReadItems(t, m, from, comma)
  {
    hide ReadItem;
  }

  lemma ItemStep(t: seq<Byte>, m: Flags, i: nat)
    requires i < |t| && !IsBlank(t[i])
    ensures ReadItem(t, m, i) ==
      var v := ReadValue(t, m, i);
      if v == None then None
      else Before(v.value.value, v.value.room, ReadItems(t, m, v.value.to, true))
  {
    hide ReadHere, ReadItems;
  }

  lemma GlobalStep(t: seq<Byte>, m: Flags, from: nat)
    requires from <= |t|
    ensures ReadGlobal(t, m, from) == AsMap(Skip(t, from), ReadObject(t, m, from, true))
  {
    hide ReadMembers;
  }

  lemma ValueStep(t: seq<Byte>, m: Flags, from: nat)
    requires from <= |t|
    ensures var i := Skip(t, from); ReadValue(t, m, from) == if i == |t| then None else ReadHere(t, m, i)
  {
    hide ReadHere;
  }

  lemma ValueSkip(t: seq<Byte>, m: Flags, i: nat)
    requires i <= |t|
    ensures ReadValue(t, m, Skip(t, i)) == ReadValue(t, m, i)
    ensures Skip(t, i) == |t| ==> ReadValue(t, m, i) == None
  {
    hide ReadHere;
  }

  lemma EntryStep(t: seq<Byte>, m: Flags, i: nat)
    requires i < |t|
    ensures ReadEntry(t, m, i) ==
      var key := ReadKey(t, m, i);
      if key == None then None
      else
        var colon := ReadColon(t, m, key.value.to);
        if colon == None then None else KeyAndValue(key.value, ReadValue(t, m, colon.value))
  {
    hide ReadValue, ReadKey;
  }

  lemma MembersStep(t: seq<Byte>, m: Flags, from: nat, comma: bool, global: bool)
    requires from <= |t|
    ensures ReadMembers(t, m, from, comma, global) ==
      var i := Skip(t, from);
      if i == |t| then (if global then Some(Read([], i, 0)) else None)
      else if !global && t[i] == 0x7D then Some(Read([], i + 1, 0))
      else if !comma then ReadMember(t, m, i, global)
      else if t[i] == 0x2C then
        (if m.trailingComma then ReadMembers(t, m, i + 1, false, global)
         else if Skip(t, i + 1) == |t| then None
         else ReadMember(t, m, Skip(t, i + 1), global))
      else if m.noCommas then ReadMember(t, m, i, global)
      else None
  {
    hide ReadMember;
  }

  lemma MembersSkip(t: seq<Byte>, m: Flags, from: nat, comma: bool, global: bool)
    requires from <= |t|
    ensures ReadMembers(t, m, Skip(t, from), comma, global) == ReadMembers(t, m, from, comma, global)
  {
    hide ReadMember;
  }

  lemma MemberDue(t: seq<Byte>, m: Flags, i: nat, bare: bool)
    requires i < |t| && !IsBlank(t[i]) && (!bare ==> t[i] != 0x7D)
    ensures ReadMembers(t, m, i, false, bare) == ReadMember(t, m, i, bare)
    ensures CutMembers(t, m, i, false, bare) == CutMember(t, m, i, bare)
  {
    hide ReadMember, CutMember;
  }

  lemma HeadStep(t: seq<Byte>, m: Flags, from: nat, comma: bool, bare: bool)
    requires from <= |t|
    ensures var r, i := ReadMembers(t, m, from, comma, bare), Skip(t, from);
      if i == |t| then !CutMembers(t, m, from, comma, bare) && r == if bare then Some(Read([], i, 0)) else None
      else if !bare && t[i] == 0x7D then !CutMembers(t, m, from, comma, bare) && r == Some(Read([], i + 1, 0))
      else
        r == ReadMembers(t, m, i, comma, bare) && CutMembers(t, m, from, comma, bare) == CutMembers(t, m, i, comma, bare)
  {
    hide ReadMembers, ReadMember, CutMembers, CutMember;
    MembersSkip(t, m, from, comma, bare);
    MembersStep(t, m, from, comma, bare);
    CutMembersStep(t, m, from, comma, bare);
    CutMembersStep(t, m, Skip(t, from), comma, bare);
  }

  lemma MemberStep(t: seq<Byte>, m: Flags, i: nat, global: bool)
    requires i < |t|
    ensures ReadMember(t, m, i, global) ==
      var e := ReadEntry(t, m, i);
      if e == None then None
      else Before(e.value.value, e.value.room, ReadMembers(t, m, e.value.to, true, global))
  {
    hide ReadEntry, ReadMembers;
  }

  predicate Agrees<T>(r: Option<Read<T>>, failed: bool, to: nat, room: int) {
    if r.Some? then !failed && to == r.value.to && room == r.value.room else failed
  }

  /** The pass stands at `offset`; with a high surrogate, between the two escapes of a pair. */
  ghost predicate Scanned(t: seq<Byte>, start: nat, done: seq<Byte>, counted: nat, offset: nat, high: nat)
  {
    if high == 0 then Chars(t, start) == Ahead(done, counted, Chars(t, offset))
    else
      IsHigh(high) && 6 <= offset < |t| && t[offset - 6] == 0x5C && counted > 0 &&
      Char(t, offset - 6) == LowHalf(t, offset, high) &&
      Chars(t, start) == Ahead(done, counted - 1, Chars(t, offset - 6))
  }

  /** The second escape of a pair is due. */
  predicate Waiting(t: seq<Byte>, offset: nat, high: nat) {
    IsHigh(high) && offset < |t| && t[offset] == 0x5C && At(t, offset + 1) == 0x75
  }

  lemma ScanTurn(t: seq<Byte>, start: nat, done: seq<Byte>, counted: nat, offset: nat, high: nat,
                 failed: bool, next: nat, more: nat, half: nat) returns (done': seq<Byte>)
    requires Scanned(t, start, done, counted, offset, high) && offset < |t| && t[offset] != 0x22
    requires high != 0 ==> Waiting(t, offset, high)
    requires !failed && half != 0 ==>
      high == 0 && t[offset] == 0x5C && next == offset + 6 && more == counted + 1 &&
      Waiting(t, next, half) && Char(t, offset) == LowHalf(t, next, half)
    requires failed || half == 0 ==>
      Agrees(CharOf(t, offset, high), failed, next, more - (if high == 0 then counted else counted - 1))
    ensures if failed then Chars(t, start) == None else Scanned(t, start, done', more, next, half)
  {
    assert high != 0 ==> counted > 0;
    ScanStep(t, start, done, counted, offset, high);
    var c := CharOf(t, offset, high);
    done' := done;
    hide Chars, Char, LowHalf, Encode, Scanned;
    if !failed {
      if half != 0 {
        ScanHalf(t, start, done, counted, offset, half);
      } else {
        done' := done + c.value.value;
      }
    }
  }

  lemma ScanStep(t: seq<Byte>, start: nat, done: seq<Byte>, counted: nat, offset: nat, high: nat)
    requires Scanned(t, start, done, counted, offset, high) && offset < |t| && t[offset] != 0x22
    requires high != 0 ==> IsHigh(high) && counted > 0
    ensures var c := if high == 0 then Char(t, offset) else LowHalf(t, offset, high);
      if c == None then Chars(t, start) == None
      else Scanned(t, start, done + c.value.value, (if high == 0 then counted else counted - 1) + c.value.room, c.value.to, 0)
  {
    var mark, before := if high == 0 then offset else offset - 6, if high == 0 then counted else counted - 1;
    CharsStep(t, mark);
    var c := Char(t, mark);
    if c.Some? {
      AheadTwice(done, before, c.value.value, c.value.room, Chars(t, c.value.to));
    }
    hide Chars, Char, LowHalf, Encode;
  }

  /** After the first escape of a pair. */
  lemma ScanHalf(t: seq<Byte>, start: nat, done: seq<Byte>, counted: nat, offset: nat, high: nat)
    requires Scanned(t, start, done, counted, offset, 0) && offset + 6 < |t| && t[offset] == 0x5C && IsHigh(high)
    requires Char(t, offset) == LowHalf(t, offset + 6, high)
    ensures Scanned(t, start, done, counted + 1, offset + 6, high)
  {
    hide Chars, Char, LowHalf, Encode;
  }

  lemma ScanEnd(t: seq<Byte>, start: nat, done: seq<Byte>, counted: nat, offset: nat)
    requires Scanned(t, start, done, counted, offset, 0)
    ensures offset >= |t| ==> Chars(t, start) == None
    ensures offset < |t| && t[offset] == 0x22 ==> Chars(t, start) == Some(Read(done, offset + 1, counted + 1))
  {
    assert done + [] == done;
    CharsEnd(t, offset);
    hide Chars;
  }

  ghost function CharOf(t: seq<Byte>, offset: nat, high: nat): (r: Option<Read<seq<Byte>>>)
    requires offset < |t| && (high != 0 ==> IsHigh(high))
    ensures r.Some? ==> offset < r.value.to <= |t| && |r.value.value| <= r.value.room
  {
    if high == 0 then Char(t, offset) else LowHalf(t, offset, high)
  }

  /** While the string is known to end, the pass stands inside it and below its room. */
  lemma ScanBound(t: seq<Byte>, start: nat, done: seq<Byte>, counted: nat, offset: nat, high: nat)
    requires Scanned(t, start, done, counted, offset, high) && Chars(t, start).Some?
    requires |done| <= counted
    ensures offset < |t| && counted < Chars(t, start).value.room
    ensures high != 0 ==> IsHigh(high) && counted > 0
    ensures t[offset] != 0x22 ==>
      CharOf(t, offset, high).Some? &&
      (if high == 0 then counted else counted - 1) + CharOf(t, offset, high).value.room < Chars(t, start).value.room
  {
    if high == 0 {
      CharsEnd(t, offset);
      if t[offset] != 0x22 {
        CharsStep(t, offset);
      }
    } else {
      CharsStep(t, offset - 6);
    }
    hide Chars, Char, LowHalf, Encode;
  }

  /** The second pass stands inside a string that ends. */
  ghost predicate Inside(t: seq<Byte>, start: nat, done: seq<Byte>, counted: nat, offset: nat, high: nat)
  {
    Scanned(t, start, done, counted, offset, high) && Chars(t, start).Some? && |done| <= counted &&
    (high != 0 ==> offset < |t| && t[offset] == 0x5C)
  }

  lemma InsideStart(t: seq<Byte>, start: nat)
    requires Chars(t, start).Some?
    ensures start < |t| && Inside(t, start, [], 0, start, 0) && 0 < Chars(t, start).value.room
  {
    AheadNothing(Chars(t, start));
  }

  lemma InsideTurn(t: seq<Byte>, start: nat, done: seq<Byte>, counted: nat, offset: nat, high: nat)
    requires Inside(t, start, done, counted, offset, high) && offset < |t| && t[offset] != 0x22
    ensures high != 0 ==> IsHigh(high)
    ensures CharOf(t, offset, high).Some?
    ensures |done| + |CharOf(t, offset, high).value.value| < Chars(t, start).value.room
  {
    ScanBound(t, start, done, counted, offset, high);
    if high != 0 {
      HalfBytes(t, offset, high);
    }
    hide Scanned, Chars, Char, LowHalf;
  }

  lemma HalfBytes(t: seq<Byte>, offset: nat, high: nat)
    requires offset < |t| && IsHigh(high) && LowHalf(t, offset, high).Some?
    ensures |LowHalf(t, offset, high).value.value| < LowHalf(t, offset, high).value.room
  {
  }

  lemma InsideNext(t: seq<Byte>, start: nat, done: seq<Byte>, counted: nat, offset: nat, high: nat,
                   next: nat, done': seq<Byte>, half: nat) returns (counted': nat)
    requires Inside(t, start, done, counted, offset, high) && offset < |t| && t[offset] != 0x22
    requires (high != 0 ==> IsHigh(high)) && CharOf(t, offset, high).Some?
    requires half != 0 ==>
      high == 0 && IsHigh(half) && t[offset] == 0x5C && next == offset + 6 < |t| && t[next] == 0x5C &&
      Char(t, offset) == LowHalf(t, next, half) && done' == done
    requires half == 0 ==>
      next == CharOf(t, offset, high).value.to && done' == done + CharOf(t, offset, high).value.value
    ensures next < |t| && Inside(t, start, done', counted', next, half) && |done'| < Chars(t, start).value.room
  {
    if half != 0 {
      ScanHalf(t, start, done, counted, offset, half);
      counted' := counted + 1;
    } else {
      counted' := InsideWhole(t, start, done, counted, offset, high);
    }
    hide Scanned, Chars, Char, LowHalf, CharOf;
    ScanBound(t, start, done', counted', next, half);
  }

  lemma InsideWhole(t: seq<Byte>, start: nat, done: seq<Byte>, counted: nat, offset: nat, high: nat)
    returns (counted': nat)
    requires Inside(t, start, done, counted, offset, high) && offset < |t| && t[offset] != 0x22
    requires (high != 0 ==> IsHigh(high)) && CharOf(t, offset, high).Some?
    ensures var c := CharOf(t, offset, high).value;
      Scanned(t, start, done + c.value, counted', c.to, 0) && |done + c.value| <= counted'
  {
    ScanStep(t, start, done, counted, offset, high);
    assert high != 0 ==> counted > 0;
    if high != 0 {
      HalfBytes(t, offset, high);
    }
    counted' := (if high == 0 then counted else counted - 1) + CharOf(t, offset, high).value.room;
    hide Scanned, Chars, Char, LowHalf;
  }

  lemma InsideEnd(t: seq<Byte>, start: nat, done: seq<Byte>, counted: nat, offset: nat, high: nat)
    requires Inside(t, start, done, counted, offset, high) && offset < |t| && t[offset] == 0x22
    ensures Chars(t, start) == Some(Read(done, offset + 1, counted + 1)) && |done| <= counted
  {
    ScanEnd(t, start, done, counted, offset);
  }

  lemma AheadNothing(rest: Option<Read<seq<Byte>>>)
    ensures Ahead([], 0, rest) == rest
  {
    assert rest.Some? ==> [] + rest.value.value == rest.value.value;
  }

  lemma AheadTwice(a: seq<Byte>, r: nat, b: seq<Byte>, q: nat, rest: Option<Read<seq<Byte>>>)
    ensures Ahead(a, r, Ahead(b, q, rest)) == Ahead(a + b, r + q, rest)
  {
    assert rest.Some? ==> a + (b + rest.value.value) == a + b + rest.value.value;
  }

  /** What a character is worth, by its first bytes. */
  lemma CharRules(t: seq<Byte>, i: nat)
    requires i < |t|
    ensures var b := t[i];
      if b == 0x00 || b == 0x09 || b == 0x0A || b == 0x0D then Char(t, i) == None
      else if b != 0x5C then Char(t, i) == Some(Read([b], i + 1, 1))
      else
        var c := At(t, i + 1);
        if c == 0x22 || c == 0x5C || c == 0x2F || c == 0x62 || c == 0x66 || c == 0x6E || c == 0x72 || c == 0x74 then
          Letter(c).Some? && Char(t, i) == Some(Read([Letter(c).value], i + 2, 1))
        else if c != 0x75 || i + 6 >= |t| || Hex4(t, i + 2) == None then Char(t, i) == None
        else
          var code := Hex4(t, i + 2).value;
          if IsHigh(code) then Char(t, i) == LowHalf(t, i + 6, code)
          else if IsLow(code) then Char(t, i) == None
          else
            Char(t, i) == Some(Read(Encode(code), i + 6, |Encode(code)|)) &&
            |Encode(code)| == if code <= 0x7F then 1 else if code <= 0x7FF then 2 else 3
  {
    if t[i] == 0x5C && Hex4(t, i + 2).Some? {
      EncodeTable(Hex4(t, i + 2).value);
    }
    hide Hex4, Encode;
  }

  lemma PlainRules(t: seq<Byte>, i: nat)
    requires i < |t| && t[i] != 0x5C
    ensures var b := t[i];
      Char(t, i) == if b == 0x00 || b == 0x09 || b == 0x0A || b == 0x0D then None else Some(Read([b], i + 1, 1))
  {
  }

  lemma LowRules(t: seq<Byte>, i: nat, high: nat)
    requires i < |t| && IsHigh(high)
    ensures var r := LowHalf(t, i, high);
      if t[i] != 0x5C || At(t, i + 1) != 0x75 || i + 6 >= |t| || Hex4(t, i + 2) == None || !IsLow(Hex4(t, i + 2).value)
      then r == None
      else r == Some(Read(Encode(Pair(high, Hex4(t, i + 2).value)), i + 6, 5))
  {
    hide Hex4, Encode;
  }

  lemma CharsEnd(t: seq<Byte>, i: nat)
    ensures i >= |t| ==> Chars(t, i) == None
    ensures i < |t| && t[i] == 0x22 ==> Chars(t, i) == Some(Read([], i + 1, 1))
  {
  }

  lemma CharsStep(t: seq<Byte>, i: nat)
    requires i < |t| && t[i] != 0x22
    ensures var c := Char(t, i);
      Chars(t, i) == if c == None then None else Ahead(c.value.value, c.value.room, Chars(t, c.value.to))
  {
  }

  function PartialHex(t: seq<Byte>, at: nat, n: nat): nat
    requires 1 <= n <= 4 && forall k :: at <= k < at + n ==> HexDigit(At(t, k)).Some?
  {
    var a := HexDigit(At(t, at)).value;
    if n == 1 then a
    else if n == 2 then a * 16 + HexDigit(At(t, at + 1)).value
    else if n == 3 then (a * 16 + HexDigit(At(t, at + 1)).value) * 16 + HexDigit(At(t, at + 2)).value
    else ((a * 16 + HexDigit(At(t, at + 1)).value) * 16 + HexDigit(At(t, at + 2)).value) * 16 + HexDigit(At(t, at + 3)).value
  }
}
