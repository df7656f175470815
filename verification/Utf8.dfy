/**
  UTF-8 encoding and decoding as src/jml_string.c does them, and the code point
  counter built on the lead bytes. Shifts and masks are written as division and
  remainder by powers of two; `Tag` is a bitwise "or" whose operands share no bit.
 */
module Utf8 {
  import opened Arithmetic
  import opened Wrappers

  type Byte = x: int | 0 <= x < 256

  const MAX_CODE_POINT: nat := 0x10FFFF

  /** What decoding accepts: up to 31 bits, in up to six bytes, JML_MAXUTF. */
  const MAX_LONG: nat := 0x7FFF_FFFF

  /** `tag | bits`, for bits below the lowest one of the tag. */
  function Tag(tag: Byte, bits: nat): Byte
    requires tag == 0x80 || tag == 0xC0 || tag == 0xE0 || tag == 0xF0
    requires bits < (if tag == 0x80 then 0x40 else if tag == 0xC0 then 0x20 else 0x10)
  {
    tag + bits
  }

  predicate IsTail(b: Byte) {
    0x80 <= b < 0xC0
  }

  /** The value without its last `n` groups of six bits. */
  function Top(v: nat, n: nat): nat {
    if n == 0 then v else Top(v / 64, n - 1)
  }

  /** The last `n` groups of six bits, a byte each. */
  function Tails(v: nat, n: nat): (s: seq<Byte>)
    ensures |s| == n
    ensures forall k :: 0 <= k < n ==> IsTail(s[k])
  {
    if n == 0 then [] else Tails(v / 64, n - 1) + [0x80 + v % 64]
  }

  /** How many bytes follow the first one in the shortest form of a value. */
  function Following(v: nat): nat {
    if v < 0x80 then 0
    else if v < 0x800 then 1
    else if v < 0x1_0000 then 2
    else if v < 0x20_0000 then 3
    else if v < 0x400_0000 then 4
    else 5
  }

  /** The one bits at the start of a byte that `n` bytes follow. */
  function Mark(n: nat): Byte {
    if n == 0 then 0
    else if n == 1 then 0xC0
    else if n == 2 then 0xE0
    else if n == 3 then 0xF0
    else if n == 4 then 0xF8
    else 0xFC
  }

  /** How many values the first byte leaves room for beside its one bits. */
  function Room(n: nat): nat {
    if n == 0 then 128 else if n == 1 then 32 else if n == 2 then 16
    else if n == 3 then 8 else if n == 4 then 4 else 2
  }

  lemma TopIs(v: nat)
    ensures Top(v, 0) == v && Top(v, 1) == v / 64 && Top(v, 2) == v / 64 / 64 && Top(v, 3) == v / 64 / 64 / 64
    ensures Top(v, 4) == v / 64 / 64 / 64 / 64 && Top(v, 5) == v / 64 / 64 / 64 / 64 / 64
  {
    var w := v / 64;
    assert Top(v, 2) == Top(w, 1) && Top(v, 3) == Top(w, 2) && Top(v, 4) == Top(w, 3) && Top(v, 5) == Top(w, 4);
    var x := w / 64;
    assert Top(w, 2) == Top(x, 1) && Top(w, 3) == Top(x, 2) && Top(w, 4) == Top(x, 3);
    var y := x / 64;
    assert Top(x, 2) == Top(y, 1) && Top(x, 3) == Top(y, 2);
  }

  lemma TopFits(v: nat)
    requires v <= MAX_LONG
    ensures Top(v, Following(v)) < Room(Following(v))
  {
    hide Top;
    TopIs(v);
  }

  /** The shortest form of a value, in the original UTF-8 of up to six bytes. */
  function Long(v: nat): (s: seq<Byte>)
    requires v <= MAX_LONG
  {
    TopFits(v);
    var n := Following(v);
    [Mark(n) + Top(v, n)] + Tails(v, n)
  }

  /** The encoding of a code point, section 3 of RFC 3629; nothing above the last one. */
  function Encode(v: nat): seq<Byte> {
    if v <= MAX_CODE_POINT then Long(v) else []
  }

  lemma EncodeTable(v: nat)
    ensures v <= 0x7F ==> Encode(v) == [v]
    ensures 0x7F < v <= 0x7FF ==> Encode(v) == [0xC0 + v / 64, 0x80 + v % 64]
    ensures 0x7FF < v <= 0xFFFF ==> Encode(v) == [0xE0 + v / 64 / 64, 0x80 + v / 64 % 64, 0x80 + v % 64]
    ensures 0xFFFF < v <= MAX_CODE_POINT ==>
      Encode(v) == [0xF0 + v / 64 / 64 / 64, 0x80 + v / 64 / 64 % 64, 0x80 + v / 64 % 64, 0x80 + v % 64]
    ensures v > MAX_CODE_POINT ==> Encode(v) == []
  {
    hide Top;
    TopIs(v);
    if 0x7F < v <= MAX_CODE_POINT {
      var w, x := v / 64, v / 64 / 64;
      assert Tails(v, 1) == [0x80 + v % 64];
      assert Tails(w, 1) == [0x80 + w % 64];
      assert Tails(x, 1) == [0x80 + x % 64];
      assert Tails(v, 2) == Tails(w, 1) + [0x80 + v % 64];
      assert Tails(w, 2) == Tails(x, 1) + [0x80 + w % 64];
      assert Tails(v, 3) == Tails(w, 2) + [0x80 + v % 64];
    }
  }

  lemma DropSix(v: nat, m: nat)
    requires m > 0
    ensures v % (64 * m) / 64 == v / 64 % m
  {
    var q, r := v / 64, v % 64;
    var a, b := q / m, q % m;
    assert v == (64 * m) * a + (64 * b + r) by {
      assert 64 * (m * a) == (64 * m) * a;
    }
    Divides(v, 64 * m, a, 64 * b + r);
  }

  lemma Masks(v: nat)
    ensures v % 0x1000 / 0x40 == v / 64 % 64
    ensures v % 0x4_0000 / 0x1000 == v / 64 / 64 % 64
    ensures v / 0x1000 == v / 64 / 64
    ensures v / 0x4_0000 == v / 64 / 64 / 64
  {
    DropSix(v, 64);
    DropSix(v, 0x1000);
    DropSix(v / 64, 64);
    Nested(v % 0x4_0000);
    Nested(v);
  }

  lemma Nested(v: nat)
    ensures v / 0x1000 == v / 64 / 64
    ensures v / 0x4_0000 == v / 64 / 64 / 64
  {
  }

  /** The masks and shifts of the three longer forms give the encoding. */
  lemma TwoBytes(v: nat)
    requires 0x7F < v <= 0x7FF
    ensures Encode(v) == [Tag(0xC0, v % 0x800 / 0x40), Tag(0x80, v % 0x40)]
  {
    EncodeTable(v);
  }

  lemma ThreeBytes(v: nat)
    requires 0x7FF < v <= 0xFFFF
    ensures v % 0x1_0000 / 0x1000 < 16 && v % 0x1000 / 0x40 < 64
    ensures Encode(v) == [Tag(0xE0, v % 0x1_0000 / 0x1000), Tag(0x80, v % 0x1000 / 0x40), Tag(0x80, v % 0x40)]
  {
    EncodeTable(v);
    Masks(v);
    hide Encode;
  }

  lemma FourBytes(v: nat)
    requires 0xFFFF < v <= MAX_CODE_POINT
    ensures v % 0x20_0000 / 0x4_0000 < 8 && v % 0x4_0000 / 0x1000 < 64 && v % 0x1000 / 0x40 < 64
    ensures Encode(v) == [Tag(0xF0, v % 0x20_0000 / 0x4_0000), Tag(0x80, v % 0x4_0000 / 0x1000),
                          Tag(0x80, v % 0x1000 / 0x40), Tag(0x80, v % 0x40)]
  {
    EncodeTable(v);
    Masks(v);
    hide Encode;
  }

  lemma Spliced(was: seq<Byte>, now: seq<Byte>, at: nat, bytes: seq<Byte>)
    requires |now| == |was| && at + |bytes| <= |was|
    requires forall i :: 0 <= i < |was| ==> now[i] == if at <= i < at + |bytes| then bytes[i - at] else was[i]
    ensures now == was[..at] + bytes + was[at + |bytes|..]
  {
  }

  /** `jml_string_encode`: writes the encoding at `at` and says how many bytes it took. */
  method WriteEncoded(buffer: array<Byte>, at: nat, value: nat) returns (n: nat)
    requires at + |Encode(value)| <= buffer.Length
    modifies buffer
    ensures n == |Encode(value)|
    ensures buffer[..] == old(buffer[..at]) + Encode(value) + old(buffer[at + n..])
  {
    hide Encode, Tag;
    ghost var was := buffer[..];
    if value <= 0x7F {
      EncodeTable(value);
      buffer[at] := value % 0x80;
      Spliced(was, buffer[..], at, Encode(value));
      return 1;
    }
    if value <= 0x7FF {
      TwoBytes(value);
      buffer[at] := Tag(0xC0, value % 0x800 / 0x40);
      buffer[at + 1] := Tag(0x80, value % 0x40);
      Spliced(was, buffer[..], at, Encode(value));
      return 2;
    }
    if value <= 0xFFFF {
      ThreeBytes(value);
      buffer[at] := Tag(0xE0, value % 0x1_0000 / 0x1000);
      buffer[at + 1] := Tag(0x80, value % 0x1000 / 0x40);
      buffer[at + 2] := Tag(0x80, value % 0x40);
      Spliced(was, buffer[..], at, Encode(value));
      return 3;
    }
    if value <= 0x10FFFF {
      FourBytes(value);
      buffer[at] := Tag(0xF0, value % 0x20_0000 / 0x4_0000);
      buffer[at + 1] := Tag(0x80, value % 0x4_0000 / 0x1000);
      buffer[at + 2] := Tag(0x80, value % 0x1000 / 0x40);
      buffer[at + 3] := Tag(0x80, value % 0x40);
      Spliced(was, buffer[..], at, Encode(value));
      return 4;
    }
    EncodeTable(value);
    return 0;
  }

  /** A first part and six more bits for each byte after it. */
  function Glue(first: nat, tails: seq<Byte>): nat {
    if tails == [] then first else Glue(first, tails[..|tails| - 1]) * 64 + tails[|tails| - 1] % 64
  }

  lemma {:induction false} GlueTails(v: nat, n: nat)
    ensures Glue(Top(v, n), Tails(v, n)) == v
  {
    if n > 0 {
      GlueTails(v / 64, n - 1);
      assert Tails(v, n)[..n - 1] == Tails(v / 64, n - 1);
    }
  }

  lemma {:induction false} TailsGlue(first: nat, tails: seq<Byte>)
    requires forall k :: 0 <= k < |tails| ==> IsTail(tails[k])
    ensures Top(Glue(first, tails), |tails|) == first && Tails(Glue(first, tails), |tails|) == tails
  {
    if tails != [] {
      var init, b := tails[..|tails| - 1], tails[|tails| - 1];
      TailsGlue(first, init);
      assert Glue(first, tails) / 64 == Glue(first, init) && Glue(first, tails) % 64 == b % 64;
      assert tails == init + [b];
    }
  }

  function Pow64(n: nat): nat {
    if n == 0 then 1 else 64 * Pow64(n - 1)
  }

  lemma {:induction false} GlueSplit(first: nat, tails: seq<Byte>)
    ensures Glue(first, tails) == Glue(0, tails) + first * Pow64(|tails|)
  {
    if tails != [] {
      GlueSplit(first, tails[..|tails| - 1]);
      var p := Pow64(|tails| - 1);
      assert first * (64 * p) == 64 * (first * p);
    }
  }

  /** `1 << n`, for the few shifts of the decoder. */
  function Two(n: nat): nat {
    if n == 0 then 1 else 2 * Two(n - 1)
  }

  /** How many one bits follow the first bit of a byte. */
  function Ones(b: Byte): nat {
    if b < 0xC0 then 0
    else if b < 0xE0 then 1
    else if b < 0xF0 then 2
    else if b < 0xF8 then 3
    else if b < 0xFC then 4
    else if b < 0xFE then 5
    else if b == 0xFE then 6
    else 7
  }

  /** The smallest value each length is needed for; no value is long enough for a stray byte. */
  function Limit(count: nat): nat {
    if count == 0 then 0xFFFF_FFFF
    else if count == 1 then 0x80
    else if count == 2 then 0x800
    else if count == 3 then 0x1_0000
    else if count == 4 then 0x20_0000
    else 0x400_0000
  }

  /** Shifting a lead byte left shows its next one bit in bit 6. */
  lemma BitSix(b: Byte, count: nat)
    requires 0x80 <= b && count <= Ones(b)
    ensures b * Two(count) / 64 % 2 == (if count < Ones(b) then 1 else 0)
  {
    assert Two(3) == 8 && Two(4) == 16 && Two(5) == 32;
    assert Two(6) == 2 * Two(5);
    assert Two(7) == 2 * Two(6);
  }

  /** `1 << (5 * n)`. */
  function Five(n: nat): nat {
    if n == 0 then 1 else 32 * Five(n - 1)
  }

  lemma Powers()
    ensures Two(1) == 2 && Two(2) == 4 && Two(3) == 8 && Two(4) == 16 && Two(5) == 32
    ensures Five(1) == 0x20 && Five(2) == 0x400 && Five(3) == 0x8000 && Five(4) == 0x10_0000 && Five(5) == 0x200_0000
    ensures Pow64(1) == 0x40 && Pow64(2) == 0x1000 && Pow64(3) == 0x4_0000
    ensures Pow64(4) == 0x100_0000 && Pow64(5) == 0x4000_0000
  {
    assert Two(3) == 8 && Five(3) == 0x8000 && Pow64(3) == 0x4_0000;
  }

  lemma TwoSteps(b: nat, count: nat)
    ensures b * Two(0) == b && b * Two(count + 1) == b * Two(count) * 2
    ensures Ones(b % 256) <= 7
  {
    var t := Two(count);
    assert b * (2 * t) == b * t * 2;
  }

  lemma GlueStep(tails: seq<Byte>, b: Byte)
    ensures Glue(0, tails + [b]) == Glue(0, tails) * 64 + b % 64
    ensures Glue(0, []) == 0
  {
    assert (tails + [b])[..|tails|] == tails;
  }

  /** What is left of a lead byte, shifted above the bits of the later bytes. */
  lemma LeadBits(b: Byte, count: nat)
    requires 1 <= count <= 5 && count == Ones(b)
    ensures Mark(count) <= b < Mark(count) + Room(count)
    ensures b * Two(count) % 128 * Five(count) == (b - Mark(count)) * Pow64(count)
  {
    hide Two, Five, Pow64;
    Powers();
    assert b * Two(count) % 128 == (b - Mark(count)) * Two(count);
  }

  lemma FollowingIs(v: nat, n: nat)
    requires 1 <= n <= 5 && Top(v, n) < Room(n) && v >= Limit(n)
    ensures v <= MAX_LONG && Following(v) == n
  {
    hide Top;
    TopIs(v);
  }

  lemma OnesIs(first: nat, n: nat)
    requires 1 <= n <= 5 && first < Room(n)
    ensures Mark(n) + first < 256 && Ones(Mark(n) + first) == n
  {
  }

  /** Bytes with the marks of a form, not too small for it, are the shortest form of their value. */
  lemma ShortestForm(b: seq<Byte>)
    requires 2 <= |b| <= 6 && Ones(b[0]) == |b| - 1
    requires forall k :: 1 <= k < |b| ==> IsTail(b[k])
    requires Mark(|b| - 1) <= b[0] && Glue(b[0] - Mark(|b| - 1), b[1..]) >= Limit(|b| - 1)
    ensures var v := Glue(b[0] - Mark(|b| - 1), b[1..]); v <= MAX_LONG && Long(v) == b
  {
    var n := |b| - 1;
    LeadBits(b[0], n);
    var first := b[0] - Mark(n);
    var v := Glue(first, b[1..]);
    TailsGlue(first, b[1..]);
    FollowingIs(v, n);
    hide Top, Tails, Glue, Ones, Following, Mark, Limit, Room;
    assert Long(v) == [b[0]] + b[1..];
  }

  /** A shortest form of more than one byte has the marks of its form and is not too small for it. */
  lemma LongForm(v: nat)
    requires 0x80 <= v <= MAX_LONG
    ensures var b := Long(v); var n := Following(v);
      1 <= n <= 5 && |b| == n + 1 && Ones(b[0]) == n && b[0] >= Mark(n) &&
      b[1..] == Tails(v, n) && Glue(b[0] - Mark(n), b[1..]) == v >= Limit(n)
  {
    var n := Following(v);
    TopFits(v);
    GlueTails(v, n);
    assert 1 <= n <= 5 && v >= Limit(n);
    OnesIs(Top(v, n), n);
    hide Top, Tails, Glue, Ones, Following, Mark, Limit, Room;
    assert Long(v)[1..] == Tails(v, n);
  }

  lemma SmallForm(v: nat)
    requires v <= MAX_LONG
    ensures v < 0x80 <==> Long(v)[0] < 0x80
  {
    TopFits(v);
  }

  predicate Starts(v: nat, str: seq<Byte>, at: nat)
    requires at <= |str|
  {
    v <= MAX_LONG && Long(v) <= str[at..]
  }

  /** Where a form of more than one byte starts, its bytes and its value are readable off the text. */
  lemma StartForm(v: nat, str: seq<Byte>, at: nat)
    requires at < |str| && str[at] >= 0x80 && Starts(v, str, at)
    ensures var n := Ones(str[at]);
      1 <= n <= 5 && at + n < |str| && (forall k :: at < k <= at + n ==> IsTail(str[k])) &&
      Glue(0, str[at + 1..at + 1 + n]) + (str[at] - Mark(n)) * Pow64(n) == v >= Limit(n)
  {
    var b := Long(v);
    assert b[0] == str[at..][0] == str[at];
    SmallForm(v);
    LongForm(v);
    var n := Following(v);
    GlueSplit(b[0] - Mark(n), b[1..]);
    hide Top, Tails, Glue, Ones, Following, Mark, Limit, Room, Long;
    assert b[1..] == str[at + 1..at + 1 + n];
    forall k | at < k <= at + n ensures IsTail(str[k]) {
      assert str[k] == Tails(v, n)[k - at - 1];
    }
  }

  /** Nothing starts where what follows the lead byte is not one of its tails. */
  lemma NoTail(str: seq<Byte>, at: nat, k: nat)
    requires at < k < |str| && 0x80 <= str[at] && k <= at + Ones(str[at]) && !IsTail(str[k])
    ensures forall v: nat :: !Starts(v, str, at)
  {
    hide Starts;
    forall v: nat ensures !Starts(v, str, at) {
      if Starts(v, str, at) {
        StartForm(v, str, at);
      }
    }
  }

  /** What starts where a lead byte has all its tails. */
  lemma AllTails(str: seq<Byte>, at: nat)
    requires at < |str| && 0x80 <= str[at] && at + Ones(str[at]) < |str|
    requires forall k :: at < k <= at + Ones(str[at]) ==> IsTail(str[k])
    ensures var n := Ones(str[at]);
      if n == 0 || n > 5 then forall v: nat :: !Starts(v, str, at)
      else
        var w := Glue(0, str[at + 1..at + 1 + n]) + str[at] * Two(n) % 128 * Five(n);
        if w >= Limit(n) then w <= MAX_LONG && str[at..at + n + 1] == Long(w)
        else forall v: nat :: !Starts(v, str, at)
  {
    hide Starts, Long;
    var n := Ones(str[at]);
    if 1 <= n <= 5 {
      var b := str[at..at + n + 1];
      var t := str[at + 1..at + 1 + n];
      assert b[1..] == t && b[0] == str[at];
      LeadBits(b[0], n);
      GlueSplit(b[0] - Mark(n), t);
      if Glue(b[0] - Mark(n), t) >= Limit(n) {
        forall k | 1 <= k < |b| ensures IsTail(b[k]) {
          assert b[k] == str[at + k];
        }
        ShortestForm(b);
      }
    }
    forall v: nat ensures Starts(v, str, at) ==>
      1 <= n <= 5 && v >= Limit(n) && Glue(0, str[at + 1..at + 1 + n]) + (str[at] - Mark(n)) * Pow64(n) == v
    {
      if Starts(v, str, at) {
        StartForm(v, str, at);
      }
    }
  }

  /** At most one value starts at a position: no shortest form is a prefix of another. */
  lemma OneReading(v: nat, w: nat, str: seq<Byte>, at: nat)
    requires at <= |str| && Starts(v, str, at) && Starts(w, str, at)
    ensures v == w
  {
    if at < |str| && str[at] >= 0x80 {
      StartForm(v, str, at);
      StartForm(w, str, at);
    } else if v >= 0x80 {
      LongForm(v);
    } else if w >= 0x80 {
      LongForm(w);
    }
  }

  lemma Reading(w: nat, end: nat, str: seq<Byte>, at: nat)
    requires at <= end <= |str| && w <= MAX_LONG && str[at..end] == Long(w)
    ensures forall v: nat, next: nat ::
      Some((w, end)) == Some((v, next)) <==> Starts(v, str, at) && next == at + |Long(v)|
  {
    hide Long;
    assert Starts(w, str, at);
    forall v: nat | Starts(v, str, at) ensures v == w {
      OneReading(v, w, str, at);
    }
  }

  /** The loop of `jml_string_decode` over the bytes after the first. */
  method DecodeTails(str: seq<Byte>, at: nat) returns (ok: bool, count: nat, c: nat, res: nat)
    requires at < |str| && str[|str| - 1] == 0 && str[at] >= 0x80
    ensures !ok ==> forall v: nat :: !Starts(v, str, at)
    ensures ok ==>
      count == Ones(str[at]) && at + count < |str| && (forall k :: at < k <= at + count ==> IsTail(str[k])) &&
      c == str[at] * Two(count) && res == Glue(0, str[at + 1..at + 1 + count])
  {
    c, res, count := str[at], 0, 0;
    TwoSteps(c, 0);
    GlueStep([], 0);
    assert str[at + 1..at + 1] == [];
    hide Starts, Long, Ones, Glue, Two;
    while c / 64 % 2 == 1
      invariant at + count < |str| && count <= Ones(str[at]) <= 7 && c == str[at] * Two(count)
      invariant forall k :: at < k <= at + count ==> IsTail(str[k])
      invariant res == Glue(0, str[at + 1..at + 1 + count])
      decreases 7 - count
    {
      BitSix(str[at], count);
      count := count + 1;
      var cc := str[at + count];
      if cc / 64 != 2 {
        NoTail(str, at, at + count);
        return false, count, c, res;
      }
      GlueStep(str[at + 1..at + count], cc);
      assert str[at + 1..at + count] + [cc] == str[at + 1..at + 1 + count];
      TwoSteps(str[at], count - 1);
      res := res * 64 + cc % 64;
      c := c * 2;
    }
    BitSix(str[at], count);
    ok := true;
  }

  /**
    `jml_string_decode`: the value that starts at `at` in a NUL-terminated string and
    the position after it. It succeeds on exactly the shortest forms of 31-bit values
    and reads nothing after the terminator.
   */
  method Decode(str: seq<Byte>, at: nat) returns (r: Option<(nat, nat)>)
    requires at < |str| && str[|str| - 1] == 0
    ensures forall v: nat, next: nat ::
      r == Some((v, next)) <==> Starts(v, str, at) && next == at + |Long(v)|
  {
    if str[at] < 0x80 {
      Reading(str[at], at + 1, str, at);
      return Some((str[at], at + 1));
    }
    hide Starts, Long, Ones, Glue, Two, Five, Mark;
    var ok, count, c, res := DecodeTails(str, at);
    if !ok {
      return None;
    }
    AllTails(str, at);
    res := res + c % 128 * Five(count);
    if count > 5 || res > MAX_LONG || res < Limit(count) {
      return None;
    }
    Reading(res, at + count + 1, str, at);
    return Some((res, at + count + 1));
  }

  /** `jml_string_charbytes`: how many bytes a character takes, by its first byte; 0 for no first byte. */
  function CharBytes(c: Byte): nat {
    if 0 < c <= 0x7F then 1
    else if 0xC2 <= c <= 0xDF then 2
    else if 0xE0 <= c <= 0xEF then 3
    else if 0xF0 <= c <= 0xF4 then 4
    else 0
  }

  function EncodeAll(points: seq<nat>): seq<Byte> {
    if points == [] then [] else Encode(points[0]) + EncodeAll(points[1..])
  }

  /** Code points a NUL-terminated string can hold. */
  predicate Holdable(points: seq<nat>) {
    forall k :: 0 <= k < |points| ==> 0 < points[k] <= MAX_CODE_POINT
  }

  lemma FirstByte(v: nat)
    requires 0 < v <= MAX_CODE_POINT
    ensures Encode(v) != [] && CharBytes(Encode(v)[0]) == |Encode(v)|
  {
    EncodeTable(v);
    if v > 0xFFFF {
      assert v / 64 / 64 / 64 <= 4;
    }
  }

  lemma {:induction false} EncodeAllAppend(a: seq<nat>, b: seq<nat>)
    ensures EncodeAll(a + b) == EncodeAll(a) + EncodeAll(b)
  {
    hide Encode;
    if a == [] {
      assert a + b == b;
    } else {
      EncodeAllAppend(a[1..], b);
      assert (a + b)[1..] == a[1..] + b;
    }
  }

  /** How many characters it takes from `pos` to reach `size`, by their first bytes. */
  function Hops(str: seq<Byte>, pos: nat, size: nat): Option<nat>
    requires size <= |str|
    decreases if pos < size then size - pos else 0
  {
    if pos >= size then Some(0)
    else
      var n := CharBytes(str[pos]);
      if n == 0 then None
      else
        var rest := Hops(str, pos + n, size);
        if rest == None then None else Some(rest.value + 1)
  }

  /** `jml_string_len`: 0 for a text in which some first byte starts no character. */
  method Length(str: seq<Byte>, given: nat) returns (len: nat)
    requires |str| > 0 && str[|str| - 1] == 0 && forall k :: 0 <= k < |str| - 1 ==> str[k] != 0
    requires given < |str|
    ensures var hops := Hops(str, 0, if given == 0 then |str| - 1 else given);
      len == if hops == None then 0 else hops.value
  {
    var size := if given == 0 then |str| - 1 else given;
    var pos := 0;
    len := 0;
    while pos < size
      invariant var rest := Hops(str, pos, size);
        Hops(str, 0, size) == if rest == None then None else Some(rest.value + len)
      decreases size - pos
    {
      len := len + 1;
      var n := CharBytes(str[pos]);
      if n == 0 {
        return 0;
      }
      pos := pos + n;
    }
  }

  /** The length of an encoded text is its number of code points. */
  lemma {:induction false} HopsCountPoints(before: seq<Byte>, points: seq<nat>, after: seq<Byte>)
    requires Holdable(points)
    ensures Hops(before + EncodeAll(points) + after, |before|, |before| + |EncodeAll(points)|) == Some(|points|)
    decreases |points|
  {
    hide Encode;
    if points != [] {
      FirstByte(points[0]);
      var e := Encode(points[0]);
      HopsCountPoints(before + e, points[1..], after);
      assert (before + e) + EncodeAll(points[1..]) + after == before + EncodeAll(points) + after;
      assert (before + EncodeAll(points) + after)[|before|] == e[0];
    }
  }
}
