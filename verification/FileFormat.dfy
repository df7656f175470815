/**
  The bytes of a file, one by one: what stands where, in which order, and which letter marks
  a constant of which kind.
 */
module FileFormat {
  import opened Arithmetic
  import opened Wrappers
  import Utf8
  import opened Serialization

  /** A number in so many bytes, the most significant first. */
  function Four(n: nat): seq<Utf8.Byte> {
    [n / 0x100_0000 % 0x100, n / 0x1_0000 % 0x100, n / 0x100 % 0x100, n % 0x100]
  }

  function Eight(n: nat): seq<Utf8.Byte> {
    Four(n / 0x1_0000_0000) + Four(n)
  }

  lemma FourIs(n: nat)
    ensures Big(n, 4) == Four(n)
  {
    assert Big(n, 4)[0] == n / 0x100_0000 % 0x100 && Big(n, 4)[1] == n / 0x1_0000 % 0x100 by { Bytes(n, 4, 0); Bytes(n, 4, 1); }
    assert Big(n, 4)[2] == n / 0x100 % 0x100 && Big(n, 4)[3] == n % 0x100 by { Bytes(n, 4, 2); Bytes(n, 4, 3); }
  }

  lemma Bytes(n: nat, k: nat, i: nat)
    requires i < k <= 8
    ensures k - i == 1 ==> Big(n, k)[i] == n % 0x100
    ensures k - i == 2 ==> Big(n, k)[i] == n / 0x100 % 0x100
    ensures k - i == 3 ==> Big(n, k)[i] == n / 0x1_0000 % 0x100
    ensures k - i == 4 ==> Big(n, k)[i] == n / 0x100_0000 % 0x100
    ensures k - i > 4 ==> Big(n, k)[i] == n / Power(k - 1 - i) % 0x100
  {
    hide Big;
    BigAt(n, k, i);
    Powers();
    assert Power(0) == 1;
  }

  lemma EightIs(n: nat)
    ensures Big(n, 8) == Eight(n)
  {
    hide Big;
    HighBytes(n);
    Bytes(n, 8, 4);
    Bytes(n, 8, 5);
    Bytes(n, 8, 6);
    Bytes(n, 8, 7);
  }

  lemma HighBytes(n: nat)
    ensures var h, s := n / 0x1_0000_0000, Big(n, 8);
      s[0] == h / 0x100_0000 % 0x100 && s[1] == h / 0x1_0000 % 0x100 && s[2] == h / 0x100 % 0x100 && s[3] == h % 0x100
  {
    hide Big;
    Powers();
    BigAt(n, 8, 0);
    BigAt(n, 8, 1);
    BigAt(n, 8, 2);
    BigAt(n, 8, 3);
    DivideTwice(n, 0x1_0000_0000, 0x100_0000);
    DivideTwice(n, 0x1_0000_0000, 0x1_0000);
    DivideTwice(n, 0x1_0000_0000, 0x100);
  }

  /** A constant by its letter: `N` and eight bytes, `OS` with a length and the text, `<`, `>` or `|`. */
  lemma ValueLayout(v: Value)
    ensures v.Number? ==> OfValue(v) == ['N' as int] + Eight(v.bits)
    ensures v.Text? ==> OfValue(v) == ['O' as int, 'S' as int] + Four(|v.chars|) + v.chars
    ensures v.Bool? ==> OfValue(v) == [if v.value then '<' as int else '>' as int]
    ensures v.Nothing? ==> OfValue(v) == ['|' as int]
    ensures v.Other? ==> OfValue(v) == []
  {
    hide Big;
    match v
    case Number(bits) => EightIs(bits);
    case Text(chars) => FourIs(|chars|);
    case _ =>
  }

  /** The constants stand one behind another. */
  lemma ValuesLayout(v: Value, vs: seq<Value>)
    ensures OfValues([]) == [] && OfValues([v] + vs) == OfValue(v) + OfValues(vs)
  {
    assert ([v] + vs)[1..] == vs;
  }

  /** How many constants, how many bytes of code and lines; the code; a line for each byte of it; the constants. */
  lemma ChunkLayout(c: Chunk, little: bool)
    requires |c.lines| == |c.code|
    ensures var s, n := OfChunk(c, little), |c.code|;
      && |s| >= 8 + 3 * n && s[..4] == Four(|c.constants|) && s[4..8] == Four(3 * n) && s[8..8 + n] == c.code
      && s[8 + 3 * n..] == OfValues(c.constants)
      && forall i :: 0 <= i < n ==>
           s[8 + n + 2 * i] == (if little then c.lines[i] % 0x100 else c.lines[i] / 0x100 % 0x100) &&
           s[8 + n + 2 * i + 1] == if little then c.lines[i] / 0x100 % 0x100 else c.lines[i] % 0x100
  {
    hide Big, OfLines, OfValues;
    var s, n := OfChunk(c, little), |c.code|;
    var a, b, l, k := Big(|c.constants|, 4), Big(n * 3, 4), OfLines(c.lines, little), OfValues(c.constants);
    FourIs(|c.constants|);
    FourIs(n * 3);
    assert s == a + b + c.code + l + k && |l| == 2 * n;
    forall i | 0 <= i < n
      ensures s[8 + n + 2 * i] == (if little then c.lines[i] % 0x100 else c.lines[i] / 0x100 % 0x100)
      ensures s[8 + n + 2 * i + 1] == if little then c.lines[i] / 0x100 % 0x100 else c.lines[i] % 0x100
    {
      LineLayout(c.lines, little, i);
      assert s[8 + n + 2 * i] == l[2 * i] && s[8 + n + 2 * i + 1] == l[2 * i + 1];
    }
  }

  lemma {:induction false} LineLayout(lines: seq<nat>, little: bool, i: nat)
    requires i < |lines|
    ensures OfLines(lines, little)[2 * i] == (if little then lines[i] % 0x100 else lines[i] / 0x100 % 0x100)
    ensures OfLines(lines, little)[2 * i + 1] == if little then lines[i] / 0x100 % 0x100 else lines[i] % 0x100
    decreases |lines|
  {
    if i < |lines| - 1 {
      LineLayout(lines[..|lines| - 1], little, i);
    }
  }

  const FIRST_LINE: string := "#!/usr/bin/env -S jml -b\n"
  const NAME: string := "jml"

  /** A file begins with the line that makes it executable, the name and the version 0.1.0. */
  lemma FileLayout(c: Chunk, little: bool)
    ensures var n := |FIRST_LINE|;
      && |HEADER| == n + 6
      && (forall i :: 0 <= i < n ==> HEADER[i] == FIRST_LINE[i] as int)
      && (forall i :: 0 <= i < 3 ==> HEADER[n + i] == NAME[i] as int)
      && HEADER[n + 3] == 0 && HEADER[n + 4] == 1 && HEADER[n + 5] == 0
    ensures FileOf(c, little).Some? ==> FileOf(c, little).value == HEADER + OfChunk(c, little)
  {
  }

  /** A file that does without its first line is read alike. */
  lemma PlainFile(c: Chunk, more: seq<Utf8.Byte>, little: bool)
    requires FitsSizes(c) && AllWritten(c)
    ensures ReadFile(MAGIC + OfChunk(c, little) + more, little) == Some(c)
  {
    hide OfChunk, ReadChunk, FitsSizes, AllWritten, SHEBANG;
    var s := MAGIC + OfChunk(c, little) + more;
    ChunkLength(c, little);
    assert s[0..|MAGIC|] == MAGIC;
    NotFirstLine(s);
    FitsAll(c);
    RoundTrip(MAGIC, c, more, little);
  }

  lemma NotFirstLine(s: seq<Utf8.Byte>)
    requires s != [] && s[0] != '#' as int
    ensures !Begins(s, 0, SHEBANG)
  {
    assert SHEBANG[0] == '#' as int;
  }

  /** And no file is read that does not begin with the name and the version, or with the line and these. */
  lemma ForeignFile(s: seq<Utf8.Byte>, little: bool)
    requires ReadFile(s, little).Some?
    ensures MAGIC < s || HEADER < s
  {
    hide ReadChunk;
    if Begins(s, 0, SHEBANG) {
      assert s[..|HEADER|] == s[0..|SHEBANG|] + s[|SHEBANG|..|HEADER|];
    } else {
      assert s[..|MAGIC|] == s[0..|MAGIC|];
    }
  }
}
