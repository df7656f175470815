/**
  Writing a chunk of bytecode to bytes and reading it back, src/jml_serialization.c.
  A number is the pattern of its 64 bits.

  Every function of the source takes the pointer to the buffer by value and the size of the
  buffer by reference. A buffer that grows moves, and the function that called for it goes on
  with a pointer to a block that has been freed. So a chunk arrives exactly if it fits into
  the buffer the outermost caller allocated.
 */
module Serialization {
  import opened Arithmetic
  import opened Wrappers
  import opened Utf8

  const SERIAL_NUM: Byte := 0x4E
  const SERIAL_OBJ: Byte := 0x4F
  const SERIAL_STRING: Byte := 0x53
  const SERIAL_NONE: Byte := 0x7C
  const SERIAL_TRUE: Byte := 0x3C
  const SERIAL_FALSE: Byte := 0x3E

  /** The constants that can be written; for other objects nothing is. */
  datatype Value = Number(bits: nat) | Bool(value: bool) | Nothing | Text(chars: seq<Byte>) | Other

  /** Code with a line for each byte, and constants. */
  datatype Chunk = Chunk(code: seq<Byte>, lines: seq<nat>, constants: seq<Value>)

  function Power(n: nat): (p: nat)
    ensures p > 0
  {
    if n == 0 then 1 else 256 * Power(n - 1)
  }

  /** The last `n` bytes of a number, the most significant first. */
  function Big(v: nat, n: nat): (s: seq<Byte>)
    ensures |s| == n
  {
    if n == 0 then [] else Big(v / 256, n - 1) + [v % 256]
  }

  function FromBig(s: seq<Byte>): nat {
    if s == [] then 0 else FromBig(s[..|s| - 1]) * 256 + s[|s| - 1]
  }

  lemma {:induction false} BigBack(v: nat, n: nat)
    requires v < Power(n)
    ensures FromBig(Big(v, n)) == v
  {
    if n > 0 {
      BigBack(v / 256, n - 1);
      assert Big(v, n)[..n - 1] == Big(v / 256, n - 1);
    }
  }

  lemma {:induction false} FromBigBounded(s: seq<Byte>)
    ensures FromBig(s) < Power(|s|)
  {
    if s != [] {
      FromBigBounded(s[..|s| - 1]);
    }
  }

  lemma Powers()
    ensures Power(1) == 0x100 && Power(2) == 0x1_0000 && Power(3) == 0x100_0000 && Power(4) == 0x1_0000_0000
    ensures Power(5) == 0x100_0000_0000 && Power(6) == 0x1_0000_0000_0000 && Power(7) == 0x100_0000_0000_0000
    ensures Power(8) == 0x1_0000_0000_0000_0000
  {
    assert Power(2) == 0x1_0000;
    assert Power(4) == 0x1_0000_0000;
    assert Power(6) == 0x1_0000_0000_0000;
  }

  /** A byte of the encoding is a shift and a mask. */
  lemma {:induction false} BigAt(v: nat, n: nat, i: nat)
    requires i < n
    ensures Big(v, n)[i] == v / Power(n - 1 - i) % 256
    decreases n
  {
    if i == n - 1 {
      assert Power(0) == 1;
    } else {
      BigAt(v / 256, n - 1, i);
      var p := Power(n - 2 - i);
      assert Power(n - 1 - i) == 256 * p;
      DivideTwice(v, 256, p);
    }
  }

  /* What is written. */

  function OfValue(v: Value): seq<Byte> {
    match v
    case Number(bits) => [SERIAL_NUM] + Big(bits, 8)
    case Bool(b) => [if b then SERIAL_TRUE else SERIAL_FALSE]
    case Nothing => [SERIAL_NONE]
    case Text(chars) => [SERIAL_OBJ] + ([SERIAL_STRING] + (Big(|chars|, 4) + chars))
    case Other => []
  }

  function OfValues(s: seq<Value>): seq<Byte> {
    if s == [] then [] else OfValue(s[0]) + OfValues(s[1..])
  }

  /** A line number as it lies in memory. */
  function OfLine(line: nat, little: bool): (s: seq<Byte>)
    ensures |s| == 2
  {
    if little then [line % 256, line / 256 % 256] else [line / 256 % 256, line % 256]
  }

  function OfLines(lines: seq<nat>, little: bool): (s: seq<Byte>)
    ensures |s| == 2 * |lines|
  {
    if lines == [] then [] else OfLines(lines[..|lines| - 1], little) + OfLine(lines[|lines| - 1], little)
  }

  function OfChunk(c: Chunk, little: bool): seq<Byte> {
    Big(|c.constants|, 4) + Big(|c.code| * 3, 4) + c.code + OfLines(c.lines, little) + OfValues(c.constants)
  }

  /* What is read. */

  /** What was read and where it ends. */
  datatype Read<+T> = Read(value: T, to: nat)

  function ReadBig(s: seq<Byte>, pos: nat, n: nat): (r: Option<Read<nat>>)
    ensures r.Some? ==> r.value.to == pos + n <= |s|
  {
    if |s| < pos + n then None else Some(Read(FromBig(s[pos..pos + n]), pos + n))
  }

  function ReadText(s: seq<Byte>, pos: nat): (r: Option<Read<Value>>)
    ensures r.Some? ==> pos < r.value.to <= |s|
  {
    var size := ReadBig(s, pos, 4);
    if size == None || |s| < size.value.to + size.value.value then None
    else Some(Read(Text(s[size.value.to..size.value.to + size.value.value]), size.value.to + size.value.value))
  }

  function ReadValue(s: seq<Byte>, pos: nat): (r: Option<Read<Value>>)
    ensures r.Some? ==> pos < r.value.to <= |s|
  {
    if |s| <= pos then None
    else if s[pos] == SERIAL_NUM then
      var bits := ReadBig(s, pos + 1, 8);
      if bits == None then None else Some(Read(Number(bits.value.value), bits.value.to))
    else if s[pos] == SERIAL_OBJ then
      (if |s| <= pos + 1 || s[pos + 1] != SERIAL_STRING then None else ReadText(s, pos + 2))
    else if s[pos] == SERIAL_NONE then Some(Read(Nothing, pos + 1))
    else if s[pos] == SERIAL_TRUE || s[pos] == SERIAL_FALSE then Some(Read(Bool(s[pos] == SERIAL_TRUE), pos + 1))
    else None
  }

  function ReadValues(s: seq<Byte>, pos: nat, n: nat): (r: Option<Read<seq<Value>>>)
    requires pos <= |s|
    ensures r.Some? ==> pos <= r.value.to <= |s| && |r.value.value| == n
    decreases n
  {
    if n == 0 then Some(Read([], pos))
    else
      var v := ReadValue(s, pos);
      if v == None then None
      else
        var rest := ReadValues(s, v.value.to, n - 1);
        if rest == None then None else Some(Read([v.value.value] + rest.value.value, rest.value.to))
  }

  function ReadLine(s: seq<Byte>, pos: nat, little: bool): nat
    requires pos + 2 <= |s|
  {
    var a: nat, b: nat := s[pos], s[pos + 1];
    if little then a + b * 256 else a * 256 + b
  }

  function ReadLines(s: seq<Byte>, pos: nat, n: nat, little: bool): (r: seq<nat>)
    requires pos + 2 * n <= |s|
    ensures |r| == n
  {
    if n == 0 then [] else ReadLines(s, pos, n - 1, little) + [ReadLine(s, pos + 2 * (n - 1), little)]
  }

  function ReadChunk(s: seq<Byte>, pos: nat, little: bool): (r: Option<Read<Chunk>>)
    ensures r.Some? ==> pos < r.value.to <= |s|
  {
    var constants := ReadBig(s, pos, 4);
    if constants == None then None
    else
      var offset := ReadBig(s, constants.value.to, 4);
      if offset == None then None
      else
        var at, count := offset.value.to, offset.value.value / 3;
        if |s| < at + offset.value.value then None
        else
          var values := ReadValues(s, at + offset.value.value, constants.value.value);
          if values == None then None
          else
            Some(Read(Chunk(s[at..at + count], ReadLines(s, at + count, count, little), values.value.value), values.value.to))
  }

  /* Reading what was written. */

  predicate FitsValue(v: Value) {
    match v
    case Number(bits) => bits < 0x1_0000_0000_0000_0000
    case Text(chars) => |chars| < 0x1_0000_0000
    case Other => false
    case _ => true
  }

  /** A line for each byte, sizes in 32 bits, and no object but strings. */
  predicate Fits(c: Chunk) {
    |c.lines| == |c.code| && |c.code| * 3 < 0x1_0000_0000 && |c.constants| < 0x1_0000_0000 &&
    (forall i :: 0 <= i < |c.lines| ==> c.lines[i] < 0x1_0000) &&
    forall i :: 0 <= i < |c.constants| ==> FitsValue(c.constants[i])
  }

  /** The bytes `x` lie at a position. */
  predicate Sits(s: seq<Byte>, pos: nat, x: seq<Byte>) {
    pos + |x| <= |s| && s[pos..pos + |x|] == x
  }

  lemma SitsBoth(s: seq<Byte>, pos: nat, x: seq<Byte>, y: seq<Byte>)
    requires Sits(s, pos, x + y)
    ensures Sits(s, pos, x) && Sits(s, pos + |x|, y)
  {
    var all := s[pos..pos + |x| + |y|];
    assert all == x + y;
    assert s[pos..pos + |x|] == all[..|x|];
    assert s[pos + |x|..pos + |x| + |y|] == all[|x|..];
  }

  lemma BigReads(s: seq<Byte>, pos: nat, v: nat, n: nat)
    requires Sits(s, pos, Big(v, n)) && v < Power(n)
    ensures ReadBig(s, pos, n) == Some(Read(v, pos + n))
  {
    BigBack(v, n);
  }

  lemma NumberReads(s: seq<Byte>, pos: nat, bits: nat)
    requires FitsValue(Number(bits)) && Sits(s, pos, [SERIAL_NUM] + Big(bits, 8))
    ensures ReadValue(s, pos) == Some(Read(Number(bits), pos + 9))
  {
    Powers();
    hide Big, Power, FromBig, ReadBig;
    SitsBoth(s, pos, [SERIAL_NUM], Big(bits, 8));
    assert s[pos] == s[pos..pos + 1][0];
    BigReads(s, pos + 1, bits, 8);
  }

  lemma LengthReads(s: seq<Byte>, pos: nat, n: nat)
    requires n < 0x1_0000_0000 && Sits(s, pos, Big(n, 4))
    ensures ReadBig(s, pos, 4) == Some(Read(n, pos + 4))
  {
    Powers();
    hide Big, Power, FromBig, ReadBig, Sits;
    BigReads(s, pos, n, 4);
  }

  lemma TextReads(s: seq<Byte>, pos: nat, chars: seq<Byte>)
    requires FitsValue(Text(chars)) && Sits(s, pos, Big(|chars|, 4) + chars)
    ensures ReadText(s, pos) == Some(Read(Text(chars), pos + 4 + |chars|))
  {
    hide Big, ReadBig, ReadText, Sits;
    SitsBoth(s, pos, Big(|chars|, 4), chars);
    LengthReads(s, pos, |chars|);
    TextStands(s, pos, chars);
  }

  lemma TextStands(s: seq<Byte>, pos: nat, chars: seq<Byte>)
    requires ReadBig(s, pos, 4) == Some(Read(|chars|, pos + 4)) && Sits(s, pos + 4, chars)
    ensures ReadText(s, pos) == Some(Read(Text(chars), pos + 4 + |chars|))
  {
    hide ReadBig;
  }

  lemma TagReads(s: seq<Byte>, pos: nat, tag: Byte)
    requires Sits(s, pos, [tag])
    ensures pos < |s| && s[pos] == tag
  {
    assert s[pos] == s[pos..pos + 1][0];
  }

  lemma StringReads(s: seq<Byte>, pos: nat, chars: seq<Byte>)
    requires FitsValue(Text(chars)) && Sits(s, pos, OfValue(Text(chars)))
    ensures ReadValue(s, pos) == Some(Read(Text(chars), pos + 6 + |chars|))
  {
    hide Big, ReadBig, ReadText, Sits, ReadValue;
    var rest := Big(|chars|, 4) + chars;
    SitsBoth(s, pos, [SERIAL_OBJ], [SERIAL_STRING] + rest);
    SitsBoth(s, pos + 1, [SERIAL_STRING], rest);
    TagReads(s, pos, SERIAL_OBJ);
    TagReads(s, pos + 1, SERIAL_STRING);
    TextReads(s, pos + 2, chars);
    ObjectReads(s, pos);
  }

  lemma TagsJoined(x: seq<Byte>)
    ensures [SERIAL_OBJ] + ([SERIAL_STRING] + x) == [SERIAL_OBJ, SERIAL_STRING] + x
  {
  }

  lemma ObjectReads(s: seq<Byte>, pos: nat)
    requires pos + 1 < |s| && s[pos] == SERIAL_OBJ && s[pos + 1] == SERIAL_STRING
    ensures ReadValue(s, pos) == ReadText(s, pos + 2)
  {
    hide ReadText, ReadBig;
  }

  lemma ValueReads(s: seq<Byte>, pos: nat, v: Value)
    requires FitsValue(v) && Sits(s, pos, OfValue(v))
    ensures ReadValue(s, pos) == Some(Read(v, pos + |OfValue(v)|))
  {
    hide Big, ReadBig, ReadText, Sits;
    match v
    case Number(bits) => NumberReads(s, pos, bits);
    case Text(chars) => StringReads(s, pos, chars);
    case Bool(b) => TagReads(s, pos, if b then SERIAL_TRUE else SERIAL_FALSE);
    case Nothing => TagReads(s, pos, SERIAL_NONE);
  }

  lemma {:induction false} ValuesRead(s: seq<Byte>, pos: nat, values: seq<Value>)
    requires (forall i :: 0 <= i < |values| ==> FitsValue(values[i])) && Sits(s, pos, OfValues(values))
    ensures ReadValues(s, pos, |values|) == Some(Read(values, pos + |OfValues(values)|))
    decreases |values|
  {
    hide OfValue, ReadValue;
    if values != [] {
      SitsBoth(s, pos, OfValue(values[0]), OfValues(values[1..]));
      ValueReads(s, pos, values[0]);
      ValuesRead(s, pos + |OfValue(values[0])|, values[1..]);
      assert [values[0]] + values[1..] == values;
    }
  }

  lemma LineReads(s: seq<Byte>, at: nat, line: nat, little: bool)
    requires line < 0x1_0000 && Sits(s, at, OfLine(line, little))
    ensures ReadLine(s, at, little) == line
  {
    var two := OfLine(line, little);
    assert s[at] == two[0] && s[at + 1] == two[1];
  }

  lemma {:induction false} LinesRead(s: seq<Byte>, pos: nat, lines: seq<nat>, little: bool)
    requires (forall i :: 0 <= i < |lines| ==> lines[i] < 0x1_0000) && Sits(s, pos, OfLines(lines, little))
    ensures ReadLines(s, pos, |lines|, little) == lines
    decreases |lines|
  {
    hide OfLine, ReadLine;
    if lines != [] {
      var init, line := lines[..|lines| - 1], lines[|lines| - 1];
      SitsBoth(s, pos, OfLines(init, little), OfLine(line, little));
      LinesRead(s, pos, init, little);
      LineReads(s, pos + 2 * |init|, line, little);
    }
  }

  /** The parts of a chunk read back, up to its constants, which lie behind. */
  ghost predicate HeadRead(s: seq<Byte>, pos: nat, c: Chunk, little: bool) {
    ReadBig(s, pos, 4) == Some(Read(|c.constants|, pos + 4)) && ReadBig(s, pos + 4, 4) == Some(Read(|c.code| * 3, pos + 8)) &&
    pos + 8 + |c.code| * 3 <= |s| && s[pos + 8..pos + 8 + |c.code|] == c.code &&
    ReadLines(s, pos + 8 + |c.code|, |c.code|, little) == c.lines &&
    Sits(s, pos + 8 + |c.code| * 3, OfValues(c.constants))
  }

  lemma HeadReads(s: seq<Byte>, pos: nat, c: Chunk, little: bool)
    requires FitsSizes(c) && Sits(s, pos, OfChunk(c, little))
    ensures HeadRead(s, pos, c, little)
    ensures |OfChunk(c, little)| == 8 + |c.code| * 3 + |OfValues(c.constants)|
  {
    Powers();
    hide Big, Power, FromBig, OfLines, OfValues, ReadLines, ReadBig;
    var a, b, lines, values := Big(|c.constants|, 4), Big(|c.code| * 3, 4), OfLines(c.lines, little), OfValues(c.constants);
    SitsBoth(s, pos, a + b + c.code + lines, values);
    SitsBoth(s, pos, a + b + c.code, lines);
    SitsBoth(s, pos, a + b, c.code);
    SitsBoth(s, pos, a, b);
    BigReads(s, pos, |c.constants|, 4);
    BigReads(s, pos + 4, |c.code| * 3, 4);
    LinesRead(s, pos + 8 + |c.code|, c.lines, little);
  }

  lemma TailRead(s: seq<Byte>, pos: nat, c: Chunk, little: bool)
    requires HeadRead(s, pos, c, little)
    ensures var values := ReadValues(s, pos + 8 + |c.code| * 3, |c.constants|);
      ReadChunk(s, pos, little) ==
        if values == None then None else Some(Read(c.(constants := values.value.value), values.value.to))
  {
    hide ReadBig, ReadLines, ReadValues, Sits;
  }

  lemma SitsBetween(before: seq<Byte>, x: seq<Byte>, after: seq<Byte>)
    ensures Sits(before + x + after, |before|, x)
  {
  }

  /** A chunk written at any place, with anything around it, reads back, and reading stops at its end. */
  lemma RoundTrip(before: seq<Byte>, c: Chunk, after: seq<Byte>, little: bool)
    requires Fits(c)
    ensures ReadChunk(before + OfChunk(c, little) + after, |before|, little) == Some(Read(c, |before| + |OfChunk(c, little)|))
  {
    hide OfChunk, ReadBig, ReadValues, ReadLines, Sits, ReadChunk, OfValues;
    var s, pos := before + OfChunk(c, little) + after, |before|;
    SitsBetween(before, OfChunk(c, little), after);
    HeadReads(s, pos, c, little);
    TailRead(s, pos, c, little);
    ValuesRead(s, pos + 8 + |c.code| * 3, c.constants);
  }

  /** The constants for which anything is written. */
  function Writable(values: seq<Value>): (r: seq<Value>)
    ensures |r| <= |values|
    ensures |r| == |values| <==> forall i :: 0 <= i < |values| ==> values[i] != Other
    ensures forall v :: v in r ==> v in values && v != Other
  {
    if values == [] then []
    else
      assert forall i :: 0 < i < |values| ==> values[i] == values[1..][i - 1];
      (if values[0] == Other then [] else [values[0]]) + Writable(values[1..])
  }

  lemma {:induction false} WrittenAlike(values: seq<Value>)
    ensures OfValues(Writable(values)) == OfValues(values)
    decreases |values|
  {
    if values != [] {
      WrittenAlike(values[1..]);
      if values[0] != Other {
        assert Writable(values)[0] == values[0] && Writable(values)[1..] == Writable(values[1..]);
      } else {
        assert Writable(values) == Writable(values[1..]);
        assert OfValue(values[0]) + OfValues(values[1..]) == OfValues(values[1..]);
      }
    }
  }

  lemma NoValue(s: seq<Byte>, pos: nat)
    requires pos >= |s|
    ensures ReadValue(s, pos) == None
  {
  }

  lemma {:induction false} RunsOut(s: seq<Byte>, pos: nat, values: seq<Value>, n: nat)
    requires (forall i :: 0 <= i < |values| ==> FitsValue(values[i])) && Sits(s, pos, OfValues(values))
    requires pos + |OfValues(values)| == |s| && n > |values|
    ensures ReadValues(s, pos, n) == None
    decreases |values|
  {
    hide OfValue, ReadValue;
    if values == [] {
      NoValue(s, pos);
    } else {
      SitsBoth(s, pos, OfValue(values[0]), OfValues(values[1..]));
      ValueReads(s, pos, values[0]);
      RunsOut(s, pos + |OfValue(values[0])|, values[1..], n - 1);
    }
  }

  /** Everything but the kinds of constants is right. */
  predicate FitsSizes(c: Chunk) {
    Fits(c.(constants := [])) && |c.constants| < 0x1_0000_0000 &&
    forall i :: 0 <= i < |c.constants| && c.constants[i] != Other ==> FitsValue(c.constants[i])
  }

  lemma ReadIsWritten(s: seq<Byte>, pos: nat)
    ensures ReadValue(s, pos).Some? ==> ReadValue(s, pos).value.value != Other
  {
  }

  /** Reading never yields a constant of a kind that is not written. */
  lemma {:induction false} NeverOther(s: seq<Byte>, pos: nat, n: nat)
    requires pos <= |s|
    ensures var r := ReadValues(s, pos, n); r.Some? ==> forall i :: 0 <= i < n ==> r.value.value[i] != Other
    decreases n
  {
    hide ReadBig, ReadText;
    if n > 0 {
      var v := ReadValue(s, pos);
      if v.Some? {
        NeverOther(s, v.value.to, n - 1);
        ReadIsWritten(s, pos);
      }
    }
  }

  predicate AllWritten(c: Chunk) {
    forall i :: 0 <= i < |c.constants| ==> c.constants[i] != Other
  }

  lemma FitsAll(c: Chunk)
    requires FitsSizes(c) && AllWritten(c)
    ensures Fits(c)
  {
  }

  /** A chunk, with anything around it, reads back if and only if every constant could be written. */
  lemma RoundTripExact(before: seq<Byte>, c: Chunk, after: seq<Byte>, little: bool)
    requires FitsSizes(c)
    ensures ReadChunk(before + OfChunk(c, little) + after, |before|, little) == Some(Read(c, |before| + |OfChunk(c, little)|)) <==>
      AllWritten(c)
  {
    hide OfChunk, ReadBig, ReadValues, ReadLines, Sits, ReadChunk, OfValues;
    var s, pos := before + OfChunk(c, little) + after, |before|;
    if AllWritten(c) {
      FitsAll(c);
      RoundTrip(before, c, after, little);
    } else {
      SitsBetween(before, OfChunk(c, little), after);
      HeadReads(s, pos, c, little);
      TailRead(s, pos, c, little);
      NeverOther(s, pos + 8 + |c.code| * 3, |c.constants|);
    }
  }

  /** With nothing behind it, a chunk with another constant does not read back as any chunk. */
  lemma CutOff(before: seq<Byte>, c: Chunk, little: bool)
    requires FitsSizes(c) && !AllWritten(c)
    ensures ReadChunk(before + OfChunk(c, little), |before|, little) == None
  {
    hide OfChunk, ReadBig, ReadValues, ReadLines, Sits, ReadChunk, OfValues;
    var s, pos := before + OfChunk(c, little), |before|;
    assert before + OfChunk(c, little) + [] == s;
    WrittenAlike(c.constants);
    SitsBetween(before, OfChunk(c, little), []);
    HeadReads(s, pos, c, little);
    TailRead(s, pos, c, little);
    var written := Writable(c.constants);
    forall k | 0 <= k < |written| ensures FitsValue(written[k]) {
      assert written[k] in written;
      var i :| 0 <= i < |c.constants| && c.constants[i] == written[k];
    }
    RunsOut(s, pos + 8 + |c.code| * 3, written, |c.constants|);
  }

  /* How much of the buffer is asked for. */

  /** Behind a string one byte more is asked for than is written. */
  function Spare(values: seq<Value>): (n: nat)
    ensures n <= 1
  {
    if values == [] then 0
    else
      match values[|values| - 1]
      case Other => Spare(values[..|values| - 1])
      case Text(_) => 1
      case _ => 0
  }

  /** A chunk fits into a buffer: REALLOC never finds it too small. */
  predicate Enough(c: Chunk, little: bool, pos: nat, size: nat) {
    pos + |OfChunk(c, little)| + Spare(c.constants) < size
  }

  /** The block the buffer lies in, and whether memory was used that is no longer there. */
  class Memory {
    var block: array<Byte>
    var size: nat
    var undefined: bool

    predicate Sound()
      reads this
    {
      size == block.Length >= 2
    }

    /** A pointer to the buffer can be used. */
    predicate Safe(serial: array<Byte>)
      reads this
    {
      !undefined && serial == block
    }

    constructor (n: nat)
      requires n >= 2
      ensures Sound() && !undefined && size == n && fresh(block)
    {
      block := new Byte[n](i => 0);
      size, undefined := n, false;
    }

    /** The REALLOC macro on a local pointer; the size grows by half until it is larger than asked for. */
    method Reallocate(serial: array<Byte>, dest: nat) returns (moved: array<Byte>)
      requires Sound()
      modifies this
      ensures Sound() && (block == old(block) || fresh(block))
      ensures dest < old(size) ==> moved == serial && block == old(block) && size == old(size) && undefined == old(undefined)
      ensures dest >= old(size) && old(Safe(serial)) ==>
        Safe(moved) && fresh(moved) && dest < size && moved[..old(size)] == old(serial[..])
      ensures dest >= old(size) && !old(Safe(serial)) ==> undefined && moved == serial && block == old(block)
    {
      moved := serial;
      if size <= dest {
        if !Safe(serial) {
          undefined := true;
          return;
        }
        var larger := size;
        while larger <= dest
          invariant larger >= size
          decreases dest - larger
        {
          larger := larger + larger / 2;
        }
        moved := new Byte[larger](i => 0);
        forall i | 0 <= i < serial.Length {
          moved[i] := serial[i];
        }
        block, size := moved, larger;
      }
    }

    /** A run of bytes written through a pointer: the copies, and the tags. */
    method Put(serial: array<Byte>, bytes: seq<Byte>, pos: nat)
      requires Sound() && (Safe(serial) ==> pos + |bytes| < size)
      modifies `undefined, block
      ensures Safe(serial) == old(Safe(serial))
      ensures Safe(serial) ==> serial[..pos + |bytes|] == old(serial[..pos]) + bytes
    {
      if !Safe(serial) {
        undefined := undefined || bytes != [];
        return;
      }
      forall i | 0 <= i < |bytes| {
        serial[pos + i] := bytes[i];
      }
    }

    /**
      What every function says of the pointer it was given: the buffer is still there
      exactly if `quiet`, and then `bytes` follow what stood in front of `pos`.
     */
    predicate Arrived(serial: array<Byte>, quiet: bool, room: nat, was: seq<Byte>, pos: nat, bytes: seq<Byte>)
      reads this, serial
    {
      && Sound()
      && (Safe(serial) <==> quiet)
      && (quiet ==> size == room && Wrote(was, serial[..], pos, bytes))
    }

    /** `jml_serialize_long`. */
    method SerializeLong(num: nat, serial: array<Byte>, pos: nat) returns (n: nat)
      requires Sound() && num < 0x1_0000_0000
      modifies this, block
      ensures n == 4 && (block == old(block) || fresh(block))
      ensures Arrived(serial, old(Safe(serial)) && pos + 4 < old(size), old(size), old(serial[..]), pos, Big(num, 4))
    {
      var local := Reallocate(serial, pos + 4);
      LongBytes(num);
      hide Big;
      Put(local, [num / 0x100_0000 % 0x100, num / 0x1_0000 % 0x100, num / 0x100 % 0x100, num % 0x100], pos);
      n := 4;
    }

    /** `jml_serialize_longlong`. */
    method SerializeLongLong(num: nat, serial: array<Byte>, pos: nat) returns (n: nat)
      requires Sound() && num < 0x1_0000_0000_0000_0000
      modifies this, block
      ensures n == 8 && (block == old(block) || fresh(block))
      ensures Arrived(serial, old(Safe(serial)) && pos + 8 < old(size), old(size), old(serial[..]), pos, Big(num, 8))
    {
      var local := Reallocate(serial, pos + 8);
      HighAndLow(num);
      hide Big;
      Put(local, LowFour(num / 0x1_0000_0000) + LowFour(num), pos);
      n := 8;
    }

    /** `jml_serialize_string`. */
    method SerializeString(chars: seq<Byte>, serial: array<Byte>, pos: nat) returns (n: nat)
      requires Sound() && |chars| < 0x1_0000_0000
      modifies this, block
      ensures n == 4 + |chars| && (block == old(block) || fresh(block))
      ensures Arrived(serial, old(Safe(serial)) && pos + 4 + |chars| + 1 < old(size), old(size), old(serial[..]), pos, Big(|chars|, 4) + chars)
    {
      hide Big;
      var posx := pos;
      n := SerializeLong(|chars|, serial, posx);
      posx := posx + n;
      ghost var first := serial[..];
      var local := Reallocate(serial, posx + |chars| + 1);
      Put(local, chars, posx);
      if old(Safe(serial)) && pos + 4 + |chars| + 1 < old(size) {
        assert Wrote(first, serial[..], posx, chars);
        WroteTwice(old(serial[..]), first, serial[..], pos, Big(|chars|, 4), chars);
      }
      posx := posx + |chars|;
      n := posx - pos;
    }

    /** `jml_serialize_obj`, of a string. */
    method SerializeObj(chars: seq<Byte>, serial: array<Byte>, pos: nat) returns (n: nat)
      requires Sound() && |chars| < 0x1_0000_0000
      modifies this, block
      ensures n == |OfValue(Text(chars))| && (block == old(block) || fresh(block))
      ensures Arrived(serial, old(Safe(serial)) && pos + n + 1 < old(size), old(size), old(serial[..]), pos, OfValue(Text(chars)))
    {
      hide Big;
      TagsJoined(Big(|chars|, 4) + chars);
      var posx := pos;
      var local := Reallocate(serial, posx + 2);
      Put(local, [SERIAL_OBJ, SERIAL_STRING], posx);
      posx := posx + 2;
      ghost var first := serial[..];
      n := SerializeString(chars, local, posx);
      if old(Safe(serial)) && pos + 2 + n + 1 < old(size) {
        assert Wrote(old(serial[..]), first, pos, [SERIAL_OBJ, SERIAL_STRING]);
        WroteTwice(old(serial[..]), first, serial[..], pos, [SERIAL_OBJ, SERIAL_STRING], Big(|chars|, 4) + chars);
      }
      n := n + 2;
    }

    /** The branch of `jml_serialize_value` for a number. */
    method SerializeNumber(bits: nat, serial: array<Byte>, pos: nat) returns (n: nat)
      requires Sound() && bits < 0x1_0000_0000_0000_0000
      modifies this, block
      ensures n == |OfValue(Number(bits))| && (block == old(block) || fresh(block))
      ensures Arrived(serial, old(Safe(serial)) && pos + n < old(size), old(size), old(serial[..]), pos, OfValue(Number(bits)))
    {
      hide Big;
      var local := Reallocate(serial, pos + 1);
      Put(local, [SERIAL_NUM], pos);
      ghost var first := serial[..];
      n := SerializeLongLong(bits, local, pos + 1);
      if old(Safe(serial)) && pos + 1 + n < old(size) {
        assert Wrote(old(serial[..]), first, pos, [SERIAL_NUM]);
        WroteTwice(old(serial[..]), first, serial[..], pos, [SERIAL_NUM], Big(bits, 8));
      }
      n := n + 1;
    }

    /** A tag that is the whole value. */
    method SerializeTag(tag: Byte, serial: array<Byte>, pos: nat) returns (n: nat)
      requires Sound()
      modifies this, block
      ensures n == 1 && (block == old(block) || fresh(block))
      ensures Arrived(serial, old(Safe(serial)) && pos + 1 < old(size), old(size), old(serial[..]), pos, [tag])
    {
      var local := Reallocate(serial, pos + 1);
      Put(local, [tag], pos);
      n := 1;
    }

    /** `jml_serialize_value`; for objects that are no strings nothing is written. */
    method SerializeValue(v: Value, serial: array<Byte>, pos: nat) returns (n: nat)
      requires Sound() && (v != Other ==> FitsValue(v))
      modifies this, block
      ensures n == |OfValue(v)| && (block == old(block) || fresh(block))
      ensures v != Other ==>
        Arrived(serial, old(Safe(serial)) && pos + n + Spare([v]) < old(size), old(size), old(serial[..]), pos, OfValue(v))
      ensures v == Other ==> block == old(block) && size == old(size) && undefined == old(undefined) && serial[..] == old(serial[..])
    {
      hide Big;
      match v
      case Text(chars) => n := SerializeObj(chars, serial, pos);
      case Number(bits) => n := SerializeNumber(bits, serial, pos);
      case Bool(b) => n := SerializeTag(if b then SERIAL_TRUE else SERIAL_FALSE, serial, pos);
      case Nothing => n := SerializeTag(SERIAL_NONE, serial, pos);
      case Other => n := 0;
    }

    /** The two sizes a chunk starts with. */
    method SerializeSizes(c: Chunk, serial: array<Byte>, pos: nat) returns (n: nat)
      requires Sound() && FitsSizes(c)
      modifies this, block
      ensures n == 8 && (block == old(block) || fresh(block))
      ensures Arrived(serial, old(Safe(serial)) && pos + 8 < old(size), old(size), old(serial[..]), pos,
                      Big(|c.constants|, 4) + Big(|c.code| * 3, 4))
    {
      hide Big, Wrote;
      var posx := pos;
      var m := SerializeLong(|c.constants|, serial, posx);
      posx := posx + m;
      ghost var first := serial[..];
      m := SerializeLong(|c.code| * 3, serial, posx);
      if old(Safe(serial)) && pos + 8 < old(size) {
        WroteTwice(old(serial[..]), first, serial[..], pos, Big(|c.constants|, 4), Big(|c.code| * 3, 4));
      }
      n := posx + m - pos;
    }

    /** Code and lines. */
    method SerializeCode(c: Chunk, little: bool, serial: array<Byte>, pos: nat) returns (moved: array<Byte>, n: nat)
      requires Sound() && FitsSizes(c)
      modifies this, block
      ensures n == |c.code| * 3 && (block == old(block) || fresh(block))
      ensures Arrived(serial, old(Safe(serial)) && pos + n < old(size), old(size), old(serial[..]), pos, c.code + OfLines(c.lines, little))
      ensures Safe(serial) ==> moved == serial
      ensures moved == serial || (fresh(moved) && serial != block)
      ensures Safe(moved) ==> pos + n < size
    {
      hide OfLines, Wrote;
      moved := SerializeBytes(c.code, serial, pos);
      ghost var first := serial[..];
      moved := SerializeBytes(OfLines(c.lines, little), moved, pos + |c.code|);
      if old(Safe(serial)) && pos + |c.code| * 3 < old(size) {
        WroteTwice(old(serial[..]), first, serial[..], pos, c.code, OfLines(c.lines, little));
      }
      n := |c.code| + |c.code| * 2;
    }

    /** A REALLOC on a local pointer and a copy through it. */
    method SerializeBytes(bytes: seq<Byte>, serial: array<Byte>, pos: nat) returns (moved: array<Byte>)
      requires Sound()
      modifies this, block
      ensures (block == old(block) || fresh(block)) && (moved == serial || (fresh(moved) && serial != block))
      ensures Safe(moved) ==> pos + |bytes| < size
      ensures Arrived(serial, old(Safe(serial)) && pos + |bytes| < old(size), old(size), old(serial[..]), pos, bytes)
      ensures Safe(serial) ==> moved == serial
    {
      moved := Reallocate(serial, pos + |bytes|);
      Put(moved, bytes, pos);
    }

    /** The loop over the constants. */
    method SerializeValues(values: seq<Value>, serial: array<Byte>, pos: nat) returns (n: nat)
      requires Sound() && (Safe(serial) ==> pos < size)
      requires forall i :: 0 <= i < |values| && values[i] != Other ==> FitsValue(values[i])
      modifies this, block
      ensures n == |OfValues(values)| && (block == old(block) || fresh(block))
      ensures Arrived(serial, old(Safe(serial)) && pos + n + Spare(values) < old(size), old(size), old(serial[..]), pos, OfValues(values))
    {
      hide OfValue, Wrote, Spare;
      n := 0;
      var i := 0;
      assert values[..0] == [];
      SpareNone();
      if Safe(serial) {
        NothingWrote(serial[..], pos);
      }
      while i < |values|
        invariant 0 <= i <= |values| && n == |OfValues(values[..i])| && (block == old(block) || fresh(block))
        invariant Arrived(serial, old(Safe(serial)) && pos + n + Spare(values[..i]) < old(size), old(size), old(serial[..]), pos,
                          OfValues(values[..i]))
      {
        ghost var was, quiet := serial[..], Safe(serial);
        if quiet {
          WroteFits(old(serial[..]), was, pos, OfValues(values[..i]));
        }
        SpareMore(values[..i], values[i]);
        ValuesAppend(values[..i], values[i]);
        assert values[..i + 1] == values[..i] + [values[i]];
        var m := SerializeValue(values[i], serial, pos + n);
        if quiet && Safe(serial) {
          WroteTwice(old(serial[..]), was, serial[..], pos, OfValues(values[..i]), OfValue(values[i]));
        }
        n := n + m;
        i := i + 1;
      }
      assert values[..i] == values;
    }

    /**
      `jml_serialize_bytecode`: the chunk stands in the buffer of the caller exactly if there
      was enough of it. Otherwise the caller is left with a pointer to freed memory.
     */
    method SerializeBytecode(c: Chunk, little: bool, serial: array<Byte>, pos: nat) returns (n: nat)
      requires Sound() && FitsSizes(c)
      modifies this, block
      ensures n == |OfChunk(c, little)| && (block == old(block) || fresh(block))
      ensures Arrived(serial, old(Safe(serial)) && Enough(c, little, pos, old(size)), old(size), old(serial[..]), pos, OfChunk(c, little))
    {
      hide Big, OfLines, OfValues, Wrote, FitsSizes, Spare;
      ghost var sizes := Big(|c.constants|, 4) + Big(|c.code| * 3, 4);
      ghost var body, values := c.code + OfLines(c.lines, little), OfValues(c.constants);
      FitsLines(c, little);
      var posx := pos;
      var m := SerializeSizes(c, serial, posx);
      posx := posx + m;
      ghost var first := serial[..];
      var local;
      local, m := SerializeCode(c, little, serial, posx);
      posx := posx + m;
      ghost var second := serial[..];
      if old(Safe(serial)) && posx < old(size) {
        WroteTwice(old(serial[..]), first, second, pos, sizes, body);
        assert sizes + body == Big(|c.constants|, 4) + Big(|c.code| * 3, 4) + c.code + OfLines(c.lines, little);
      }
      m := SerializeValues(c.constants, local, posx);
      posx := posx + m;
      n := posx - pos;
      if old(Safe(serial)) && Enough(c, little, pos, old(size)) {
        WroteTwice(old(serial[..]), second, serial[..], pos, sizes + body, values);
      }
    }
  }

  const SERIAL_MIN: nat := 512

  /** The line that makes a file executable. */
  const SHEBANG: seq<Byte> := [
    0x23, 0x21, 0x2F, 0x75, 0x73, 0x72, 0x2F, 0x62, 0x69, 0x6E, 0x2F, 0x65, 0x6E, 0x76, 0x20, 0x2D, 0x53, 0x20,
    0x6A, 0x6D, 0x6C, 0x20, 0x2D, 0x62, 0x0A]

  /** The name of the language and its version. */
  const MAGIC: seq<Byte> := [0x6A, 0x6D, 0x6C, 0, 1, 0]

  const HEADER: seq<Byte> := SHEBANG + MAGIC

  /** What is written to a file; nothing can be said when freed memory is. */
  function FileOf(c: Chunk, little: bool): Option<seq<Byte>> {
    if Enough(c, little, |HEADER|, SERIAL_MIN) then Some(HEADER + OfChunk(c, little)) else None
  }

  /** `jml_serialize_bytecode_file`; none when the bytes are taken from freed memory. */
  method WriteFile(c: Chunk, little: bool) returns (file: Option<seq<Byte>>)
    requires FitsSizes(c)
    ensures file == FileOf(c, little)
  {
    hide OfChunk, Spare;
    var memory := new Memory(SERIAL_MIN);
    var serial := memory.block;
    memory.Put(serial, SHEBANG, 0);
    memory.Put(serial, MAGIC, |SHEBANG|);
    var pos := |HEADER|;
    assert serial[..pos] == HEADER;
    var n := memory.SerializeBytecode(c, little, serial, pos);
    pos := pos + n;
    if !memory.Safe(serial) {
      return None;
    }
    return Some(serial[..pos]);
  }

  predicate Begins(s: seq<Byte>, pos: nat, x: seq<Byte>) {
    |s| > pos + |x| && s[pos..pos + |x|] == x
  }

  /** `jml_deserialize_bytecode_file`. */
  function ReadFile(s: seq<Byte>, little: bool): Option<Chunk> {
    var pos := if Begins(s, 0, SHEBANG) then |SHEBANG| else 0;
    if !Begins(s, pos, MAGIC) then None
    else
      match ReadChunk(s, pos + |MAGIC|, little)
      case None => None
      case Some(r) => Some(r.value)
  }

  lemma HeaderBegins(body: seq<Byte>)
    requires body != []
    ensures Begins(HEADER + body, 0, SHEBANG) && Begins(HEADER + body, |SHEBANG|, MAGIC)
  {
    var s := HEADER + body;
    assert s[..|SHEBANG|] == SHEBANG;
    assert s[|SHEBANG|..|HEADER|] == MAGIC;
  }

  /**
    A chunk written to a file is read from it again if and only if it fits into the first
    buffer and all its constants are of the kinds that are written.
   */
  lemma FileRoundTrip(c: Chunk, little: bool)
    requires FitsSizes(c)
    ensures FileOf(c, little).Some? && ReadFile(FileOf(c, little).value, little) == Some(c) <==>
      Enough(c, little, |HEADER|, SERIAL_MIN) && AllWritten(c)
  {
    hide OfChunk, ReadChunk, Enough, FitsSizes, Begins;
    if Enough(c, little, |HEADER|, SERIAL_MIN) {
      ChunkLength(c, little);
      HeaderBegins(OfChunk(c, little));
      assert HEADER + OfChunk(c, little) + [] == HEADER + OfChunk(c, little);
      RoundTripExact(HEADER, c, [], little);
      if ReadFile(FileOf(c, little).value, little) == Some(c) {
        ReadIsAllWritten(HEADER + OfChunk(c, little), |HEADER|, little);
      }
    }
  }

  lemma ReadIsAllWritten(s: seq<Byte>, pos: nat, little: bool)
    ensures ReadChunk(s, pos, little).Some? ==> AllWritten(ReadChunk(s, pos, little).value.value)
  {
    hide ReadBig, ReadValues, ReadLines;
    if ReadChunk(s, pos, little).Some? {
      var offset := ReadBig(s, pos + 4, 4).value.value;
      NeverOther(s, pos + 8 + offset, ReadBig(s, pos, 4).value.value);
    }
  }

  lemma ChunkLength(c: Chunk, little: bool)
    requires |c.lines| == |c.code| || FitsSizes(c)
    ensures |OfChunk(c, little)| == 8 + |c.code| * 3 + |OfValues(c.constants)|
  {
    hide Big, OfLines, OfValues;
  }

  /** A single string constant of 466 bytes is too long for the first buffer; one of 465 is not. */
  lemma LongStringLost(chars: seq<Byte>, little: bool)
    ensures FileOf(Chunk([], [], [Text(chars)]), little).Some? <==> |chars| < 466
  {
    var c := Chunk([], [], [Text(chars)]);
    ChunkLength(c, little);
    assert OfValues(c.constants) == OfValue(Text(chars)) + OfValues(c.constants[1..]);
  }

  lemma FitsLines(c: Chunk, little: bool)
    requires FitsSizes(c)
    ensures |OfLines(c.lines, little)| == 2 * |c.code|
    ensures forall i :: 0 <= i < |c.constants| && c.constants[i] != Other ==> FitsValue(c.constants[i])
  {
  }

  lemma SpareNone()
    ensures Spare([]) == 0
  {
  }

  lemma SpareMore(values: seq<Value>, v: Value)
    ensures Spare([v]) <= |OfValue(v)|
    ensures |OfValue(v)| + Spare(values + [v]) == if v == Other then Spare(values) else |OfValue(v)| + Spare([v])
    ensures if v == Other then OfValue(v) == [] && Spare([v]) == 0 else |OfValue(v)| >= 1
  {
    assert (values + [v])[..|values|] == values && [v][..0] == [];
  }

  lemma NothingWrote(was: seq<Byte>, pos: nat)
    requires pos < |was|
    ensures Wrote(was, was, pos, [])
  {
    assert was[..pos] + [] == was[..pos];
  }

  lemma WroteFits(was: seq<Byte>, now: seq<Byte>, pos: nat, bytes: seq<Byte>)
    requires Wrote(was, now, pos, bytes)
    ensures pos + |bytes| < |now|
  {
  }

  lemma {:induction false} ValuesAppend(values: seq<Value>, v: Value)
    ensures OfValues(values + [v]) == OfValues(values) + OfValue(v)
  {
    hide OfValue;
    if values == [] {
      assert [] + [v] == [v] && OfValues([]) == [] && [v][1..] == [];
      assert OfValue(v) + [] == OfValue(v);
    } else {
      ValuesAppend(values[1..], v);
      assert (values + [v])[1..] == values[1..] + [v];
    }
  }

  /** Up to `pos` the buffer is as it was, and there `bytes` follow. */
  predicate Wrote(was: seq<Byte>, now: seq<Byte>, pos: nat, bytes: seq<Byte>) {
    pos <= |was| && pos + |bytes| < |now| && now[..pos + |bytes|] == was[..pos] + bytes
  }

  lemma WroteTwice(a: seq<Byte>, b: seq<Byte>, c: seq<Byte>, pos: nat, x: seq<Byte>, y: seq<Byte>)
    requires Wrote(a, b, pos, x) && Wrote(b, c, pos + |x|, y)
    ensures Wrote(a, c, pos, x + y)
  {
  }

  function LowFour(num: nat): (s: seq<Byte>)
    ensures |s| == 4
  {
    [num / 0x100_0000 % 0x100, num / 0x1_0000 % 0x100, num / 0x100 % 0x100, num % 0x100]
  }

  function Quotient(v: nat, d: nat): nat
    requires d > 0
  {
    v / d
  }

  lemma {:induction false} BigSplit(v: nat, a: nat, b: nat)
    ensures Big(v, a + b) == Big(Quotient(v, Power(b)), a) + Big(v, b)
    decreases b
  {
    if b > 0 {
      BigSplit(v / 256, a, b - 1);
      DivideTwice(v, 256, Power(b - 1));
    }
  }

  lemma HighAndLow(num: nat)
    ensures Big(num, 8) == LowFour(num / 0x1_0000_0000) + LowFour(num)
  {
    Powers();
    BigSplit(num, 4, 4);
    LongBytes(num);
    LongBytes(num / 0x1_0000_0000);
    hide Big, LowFour;
  }

  lemma LongBytes(num: nat)
    ensures Big(num, 4) == LowFour(num)
  {
    Powers();
    BigAt(num, 4, 0);
    BigAt(num, 4, 1);
    BigAt(num, 4, 2);
    BigAt(num, 4, 3);
    assert Power(0) == 1;
    hide Big;
  }

  /* Reading, from any bytes: every access is inside them. */

  /** `jml_deserialize_long`. */
  method DeserializeLong(serial: seq<Byte>, pos: nat) returns (r: Option<Read<nat>>)
    ensures r == ReadBig(serial, pos, 4)
    ensures r.Some? ==> r.value.value < 0x1_0000_0000
  {
    if |serial| < pos + 4 {
      return None;
    }
    var b0: nat, b1: nat, b2: nat, b3: nat := serial[pos], serial[pos + 1], serial[pos + 2], serial[pos + 3];
    FourBytes(serial[pos..pos + 4]);
    return Some(Read(b0 * 0x100_0000 + b1 * 0x1_0000 + b2 * 0x100 + b3, pos + 4));
  }

  lemma FourBytes(s: seq<Byte>)
    requires |s| == 4
    ensures FromBig(s) == s[0] as nat * 0x100_0000 + s[1] as nat * 0x1_0000 + s[2] as nat * 0x100 + s[3] as nat
  {
    assert s[..3][..2] == s[..2] && s[..2][..1] == s[..1] && s[..1][..0] == [];
    assert FromBig(s[..1]) == s[0] as nat;
    assert FromBig(s[..2]) == FromBig(s[..1]) * 256 + s[1] as nat;
    assert FromBig(s[..3]) == FromBig(s[..2]) * 256 + s[2] as nat;
  }

  /** `jml_deserialize_longlong`. */
  method DeserializeLongLong(serial: seq<Byte>, pos: nat) returns (r: Option<Read<nat>>)
    ensures r == ReadBig(serial, pos, 8)
  {
    if |serial| < pos + 8 {
      return None;
    }
    var b0: nat, b1: nat, b2: nat, b3: nat := serial[pos], serial[pos + 1], serial[pos + 2], serial[pos + 3];
    var b4: nat, b5: nat, b6: nat, b7: nat := serial[pos + 4], serial[pos + 5], serial[pos + 6], serial[pos + 7];
    ghost var s := serial[pos..pos + 8];
    assert s[4..] == serial[pos + 4..pos + 8] && s[..4] == serial[pos..pos + 4];
    EightBytes(s);
    hide FromBig;
    return Some(Read(b0 * 0x100_0000_0000_0000 + b1 * 0x1_0000_0000_0000 + b2 * 0x100_0000_0000 + b3 * 0x1_0000_0000 +
      b4 * 0x100_0000 + b5 * 0x1_0000 + b6 * 0x100 + b7, pos + 8));
  }

  lemma EightBytes(s: seq<Byte>)
    requires |s| == 8
    ensures FromBig(s) == FromBig(s[..4]) * 0x1_0000_0000 + FromBig(s[4..])
    ensures FromBig(s[..4]) == s[0] as nat * 0x100_0000 + s[1] as nat * 0x1_0000 + s[2] as nat * 0x100 + s[3] as nat
    ensures FromBig(s[4..]) == s[4] as nat * 0x100_0000 + s[5] as nat * 0x1_0000 + s[6] as nat * 0x100 + s[7] as nat
  {
    Powers();
    FromBigSplit(s[..4], s[4..]);
    assert s[..4] + s[4..] == s;
    FourBytes(s[..4]);
    FourBytes(s[4..]);
    hide FromBig;
  }

  lemma {:induction false} FromBigSplit(s: seq<Byte>, t: seq<Byte>)
    ensures FromBig(s + t) == FromBig(s) * Power(|t|) + FromBig(t)
    decreases |t|
  {
    if t == [] {
      assert s + t == s;
    } else {
      var init := t[..|t| - 1];
      FromBigSplit(s, init);
      assert (s + t)[..|s + t| - 1] == s + init;
      var p := Power(|init|);
      assert FromBig(s) * (256 * p) == FromBig(s) * p * 256;
    }
  }

  /** `jml_deserialize_string`. */
  method DeserializeString(serial: seq<Byte>, pos: nat) returns (r: Option<Read<Value>>)
    ensures r == ReadText(serial, pos)
  {
    hide FromBig;
    var size := DeserializeLong(serial, pos);
    if size == None {
      return None;
    }
    var at := size.value.to;
    if |serial| < at + size.value.value {
      return None;
    }
    return Some(Read(Text(serial[at..at + size.value.value]), at + size.value.value));
  }

  /** `jml_deserialize_value` and `jml_deserialize_obj`. */
  method DeserializeValue(serial: seq<Byte>, pos: nat) returns (r: Option<Read<Value>>)
    ensures r == ReadValue(serial, pos)
  {
    hide FromBig;
    if |serial| <= pos {
      return None;
    }
    var byte := serial[pos];
    var posx := pos + 1;
    if byte == SERIAL_NUM {
      var num := DeserializeLongLong(serial, posx);
      if num == None {
        return None;
      }
      return Some(Read(Number(num.value.value), num.value.to));
    } else if byte == SERIAL_OBJ {
      if |serial| <= posx {
        return None;
      }
      byte := serial[posx];
      posx := posx + 1;
      if byte == SERIAL_STRING {
        r := DeserializeString(serial, posx);
        return;
      }
      return None;
    } else if byte == SERIAL_NONE {
      return Some(Read(Nothing, posx));
    } else if byte == SERIAL_TRUE || byte == SERIAL_FALSE {
      return Some(Read(Bool(byte == SERIAL_TRUE), posx));
    }
    return None;
  }

  /** `jml_deserialize_bytecode`: what is read and where reading stops, or a failure. */
  method DeserializeBytecode(serial: seq<Byte>, pos: nat, little: bool) returns (r: Option<Read<Chunk>>)
    ensures r == ReadChunk(serial, pos, little)
  {
    hide FromBig, ReadValues, ReadLines;
    var constants := DeserializeLong(serial, pos);
    if constants == None {
      return None;
    }
    var offset := DeserializeLong(serial, constants.value.to);
    if offset == None {
      return None;
    }
    var posx := offset.value.to;
    var count := offset.value.value / 3;
    if |serial| < offset.value.value + posx {
      return None;
    }
    var code, lines := DeserializeCode(serial, posx, count, little);
    posx := posx + offset.value.value;
    var values := DeserializeValues(serial, posx, constants.value.value);
    if values == None {
      return None;
    }
    return Some(Read(Chunk(code, lines, values.value.value), values.value.to));
  }

  /** The loop over code and lines, which lie one behind the other. */
  method DeserializeCode(serial: seq<Byte>, pos: nat, count: nat, little: bool) returns (code: seq<Byte>, lines: seq<nat>)
    requires pos + 3 * count <= |serial|
    ensures code == serial[pos..pos + count] && lines == ReadLines(serial, pos + count, count, little)
  {
    code, lines := [], [];
    var i := 0;
    while i < count
      invariant 0 <= i <= count && code == serial[pos..pos + i]
      invariant lines == ReadLines(serial, pos + count, i, little)
    {
      lines := lines + [ReadLine(serial, pos + count + i * 2, little)];
      code := code + [serial[pos + i]];
      i := i + 1;
    }
  }

  /** The loop over the constants. */
  method DeserializeValues(serial: seq<Byte>, pos: nat, n: nat) returns (r: Option<Read<seq<Value>>>)
    requires pos <= |serial|
    ensures r == ReadValues(serial, pos, n)
  {
    hide ReadValue;
    var values: seq<Value> := [];
    var posx: nat := pos;
    var i: nat := 0;
    BehindMore([], Nothing, ReadValues(serial, pos, n));
    while i < n
      invariant 0 <= i <= n && posx <= |serial|
      invariant ReadValues(serial, pos, n) == Behind(values, ReadValues(serial, posx, n - i))
    {
      var value := DeserializeValue(serial, posx);
      if value == None {
        return None;
      }
      BehindMore(values, value.value.value, ReadValues(serial, value.value.to, n - i - 1));
      values := values + [value.value.value];
      posx := value.value.to;
      i := i + 1;
    }
    assert values + [] == values;
    return Some(Read(values, posx));
  }

  function Behind(done: seq<Value>, rest: Option<Read<seq<Value>>>): Option<Read<seq<Value>>> {
    if rest == None then None else Some(Read(done + rest.value.value, rest.value.to))
  }

  lemma BehindMore(done: seq<Value>, v: Value, rest: Option<Read<seq<Value>>>)
    ensures Behind(done + [v], rest) == Behind(done, if rest == None then None else Some(Read([v] + rest.value.value, rest.value.to)))
    ensures Behind([], rest) == rest
  {
    if rest.Some? {
      assert done + [v] + rest.value.value == done + ([v] + rest.value.value);
      assert [] + rest.value.value == rest.value.value;
    }
  }
}
