/**
  The grammar of std/json.c against RFC 8259, whose productions are restated here on whole
  stretches of text: numbers (section 6), strings (section 7), and values of any depth,
  which are read back as they were written.
 */
module JsonStandard {
  import opened Wrappers
  import opened Utf8
  import opened JsonGrammar
  import opened JsonReader
  import opened JsonModes

  /* Numbers. */

  predicate IsDigits(s: seq<Byte>) {
    s != [] && forall k :: 0 <= k < |s| ==> IsDigit(s[k])
  }

  /** `int`: no superfluous zero. */
  predicate IsInt(s: seq<Byte>) {
    IsDigits(s) && (s[0] == 0x30 ==> |s| == 1)
  }

  /** `[ frac ]` */
  predicate IsFrac(s: seq<Byte>) {
    s == [] || (s[0] == 0x2E && IsDigits(s[1..]))
  }

  /** `[ exp ]` */
  predicate IsExp(s: seq<Byte>) {
    s == [] ||
    ((s[0] == 0x65 || s[0] == 0x45) &&
     (IsDigits(s[1..]) || (|s| >= 2 && (s[1] == 0x2B || s[1] == 0x2D) && IsDigits(s[2..]))))
  }

  predicate IsMinus(s: seq<Byte>) {
    s == [] || s == [0x2D]
  }

  /** `number = [ minus ] int [ frac ] [ exp ]` */
  ghost predicate IsNumber(s: seq<Byte>) {
    exists minus, int_, frac, exp :: s == minus + int_ + frac + exp && IsParts(minus, int_, frac, exp)
  }

  predicate IsParts(minus: seq<Byte>, int_: seq<Byte>, frac: seq<Byte>, exp: seq<Byte>) {
    IsMinus(minus) && IsInt(int_) && IsFrac(frac) && IsExp(exp)
  }

  lemma {:induction false} DigitsIs(t: seq<Byte>, k: nat, e: nat)
    requires k <= e <= |t| && !IsDigit(At(t, e)) && forall p :: k <= p < e ==> IsDigit(t[p])
    ensures Digits(t, k) == e
    decreases e - k
  {
    if k < e {
      DigitsIs(t, k + 1, e);
    }
  }

  lemma DigitsAre(t: seq<Byte>, k: nat)
    requires k <= |t| && IsDigit(At(t, k))
    ensures k < Digits(t, k) <= |t| && IsDigits(t[k..Digits(t, k)])
  {
    var e := Digits(t, k);
    assert forall p :: k <= p < e ==> IsDigit(At(t, p));
    assert forall p :: k <= p < e ==> At(t, p) == t[p];
  }

  lemma WholeIs(t: seq<Byte>, i: nat)
    requires i < |t| && (t[i] == 0x2D || IsDigit(t[i])) && Whole(t, i).Some?
    ensures var a, w := if t[i] == 0x2D then i + 1 else i, Whole(t, i).value;
      IsMinus(t[i..a]) && (if a == |t| then w == a else a < w <= |t| && IsInt(t[a..w]))
  {
    var a, w := if t[i] == 0x2D then i + 1 else i, Whole(t, i).value;
    if a < |t| {
      DigitsAre(t, a);
      if t[a] == 0x30 {
        DigitsIs(t, a, a + 1);
      }
    }
  }

  lemma FractionIs(t: seq<Byte>, i: nat)
    requires i <= |t| && Fraction(t, i).Some?
    ensures i <= Fraction(t, i).value <= |t| && IsFrac(t[i..Fraction(t, i).value])
  {
    if At(t, i) == 0x2E {
      DigitsAre(t, i + 1);
      var s := t[i..Fraction(t, i).value];
      assert s[1..] == t[i + 1..Digits(t, i + 1)];
    }
  }

  lemma ExponentIs(t: seq<Byte>, i: nat)
    requires i <= |t| && Exponent(t, i).Some?
    ensures i <= Exponent(t, i).value <= |t| && IsExp(t[i..Exponent(t, i).value])
  {
    if At(t, i) == 0x65 || At(t, i) == 0x45 {
      var a := if At(t, i + 1) == 0x2D || At(t, i + 1) == 0x2B then i + 2 else i + 1;
      DigitsAre(t, a);
      var s := t[i..Digits(t, a)];
      assert s[a - i..] == t[a..Digits(t, a)];
    }
  }

  /** The one number that is none by the standard: a minus that ends the text. */
  predicate LoneMinus(t: seq<Byte>, i: nat) {
    i + 1 == |t| && t[i] == 0x2D
  }

  lemma NumberIs(t: seq<Byte>, m: Flags, i: nat)
    requires i < |t| && (t[i] == 0x2D || IsDigit(t[i])) && NumberEnd(t, m, i).Some?
    ensures var e := NumberEnd(t, m, i).value;
      i < e <= |t| && (e == |t| || Follows(m, t[e])) && (IsNumber(t[i..e]) || (LoneMinus(t, i) && e == |t|))
  {
    var a, w := if t[i] == 0x2D then i + 1 else i, Whole(t, i).value;
    var f := Fraction(t, w).value;
    var e := Exponent(t, f).value;
    WholeIs(t, i);
    FractionIs(t, w);
    ExponentIs(t, f);
    hide Whole, Fraction, Exponent, IsInt, IsFrac, IsExp;
    if a < |t| {
      FourParts(t, i, a, w, f, e);
    }
  }

  lemma FourParts(t: seq<Byte>, i: nat, a: nat, w: nat, f: nat, e: nat)
    requires i <= a <= w <= f <= e <= |t| && IsParts(t[i..a], t[a..w], t[w..f], t[f..e])
    ensures IsNumber(t[i..e])
  {
    hide IsParts;
    Parted(t, i, a, w);
    Parted(t, i, w, f);
    Parted(t, i, f, e);
  }

  lemma Parted(t: seq<Byte>, i: nat, k: nat, e: nat)
    requires i <= k <= e <= |t|
    ensures t[i..e] == t[i..k] + t[k..e]
  {
  }

  /** The stretch `x` of the text at `i`. */
  predicate Lies(t: seq<Byte>, i: nat, x: seq<Byte>) {
    i + |x| <= |t| && t[i..i + |x|] == x
  }

  lemma LiesApart(t: seq<Byte>, i: nat, x: seq<Byte>, y: seq<Byte>)
    requires Lies(t, i, x + y)
    ensures Lies(t, i, x) && Lies(t, i + |x|, y)
  {
    var all := t[i..i + |x| + |y|];
    assert t[i..i + |x|] == all[..|x|];
    assert t[i + |x|..i + |x| + |y|] == all[|x|..];
  }

  lemma DigitsLie(t: seq<Byte>, i: nat, x: seq<Byte>)
    requires Lies(t, i, x) && IsDigits(x) && !IsDigit(At(t, i + |x|))
    ensures Digits(t, i) == i + |x| && IsDigit(At(t, i))
  {
    assert forall k :: 0 <= k < |x| ==> t[i + k] == x[k];
    forall p | i <= p < i + |x|
      ensures IsDigit(t[p])
    {
      assert t[p] == x[p - i];
    }
    DigitsIs(t, i, i + |x|);
  }

  lemma WholeLies(t: seq<Byte>, i: nat, minus: seq<Byte>, x: seq<Byte>)
    requires i < |t| && Lies(t, i, minus + x) && IsMinus(minus) && IsInt(x) && !IsDigit(At(t, i + |minus| + |x|))
    ensures (t[i] == 0x2D || IsDigit(t[i])) && Whole(t, i) == Some(i + |minus| + |x|)
  {
    LiesApart(t, i, minus, x);
    var a := i + |minus|;
    DigitsLie(t, a, x);
    assert t[a] == x[0];
    if minus != [] {
      assert t[i] == minus[0];
    }
  }

  lemma FractionLies(t: seq<Byte>, i: nat, x: seq<Byte>)
    requires i <= |t| && Lies(t, i, x) && IsFrac(x) && !IsDigit(At(t, i + |x|)) && At(t, i + |x|) != 0x2E
    ensures Fraction(t, i) == Some(i + |x|)
  {
    if x != [] {
      assert x == [x[0]] + x[1..];
      LiesApart(t, i, [x[0]], x[1..]);
      assert t[i] == t[i..i + 1][0];
      DigitsLie(t, i + 1, x[1..]);
    }
  }

  lemma ExponentLies(t: seq<Byte>, i: nat, x: seq<Byte>)
    requires i <= |t| && Lies(t, i, x) && IsExp(x) && !IsNumeric(At(t, i + |x|))
    ensures Exponent(t, i) == Some(i + |x|)
  {
    if x != [] {
      var n := if IsDigits(x[1..]) then 1 else 2;
      assert x == x[..n] + x[n..];
      LiesApart(t, i, x[..n], x[n..]);
      assert t[i] == x[0] && t[i + 1] == x[1];
      DigitsLie(t, i + n, x[n..]);
      if n == 1 {
        assert IsDigit(x[1..][0]);
      }
    }
  }

  /** What a fraction or an exponent begins with, if it is there, ends what is in front of it. */
  lemma PartBegins(t: seq<Byte>, i: nat, x: seq<Byte>)
    requires Lies(t, i, x) && (IsFrac(x) || IsExp(x)) && x != []
    ensures At(t, i) == x[0] && !IsDigit(At(t, i)) && (IsExp(x) ==> At(t, i) != 0x2E)
  {
    assert t[i] == t[i..i + |x|][0];
  }

  lemma NumberLies(t: seq<Byte>, m: Flags, i: nat, e: nat, minus: seq<Byte>, int_: seq<Byte>, frac: seq<Byte>, exp: seq<Byte>)
    requires i < e <= |t| && t[i..e] == minus + int_ + frac + exp && IsParts(minus, int_, frac, exp)
    requires e == |t| || Follows(m, t[e])
    ensures (t[i] == 0x2D || IsDigit(t[i])) && NumberEnd(t, m, i) == Some(e)
  {
    hide IsInt, IsFrac, IsExp, Whole, Fraction, Exponent;
    LiesApart(t, i, minus + int_ + frac, exp);
    LiesApart(t, i, minus + int_, frac);
    var w, f := i + |minus + int_|, i + |minus + int_ + frac|;
    if exp != [] {
      PartBegins(t, f, exp);
    }
    if frac != [] {
      PartBegins(t, w, frac);
    }
    WholeLies(t, i, minus, int_);
    FractionLies(t, w, frac);
    ExponentLies(t, f, exp);
  }

  /**
    A number is read exactly where one stands by the standard, followed by the end of the
    text or by what may follow a number, but for the lone minus, which is read as well.
   */
  lemma NumberExact(t: seq<Byte>, m: Flags, i: nat, e: nat)
    requires i < |t| && (t[i] == 0x2D || IsDigit(t[i]))
    ensures NumberEnd(t, m, i) == Some(e) <==>
      i < e <= |t| && (e == |t| || Follows(m, t[e])) && (IsNumber(t[i..e]) || (LoneMinus(t, i) && e == |t|))
  {
    hide NumberEnd, IsParts;
    if NumberEnd(t, m, i) == Some(e) {
      NumberIs(t, m, i);
    }
    if i < e <= |t| && (e == |t| || Follows(m, t[e])) {
      if IsNumber(t[i..e]) {
        var minus, int_, frac, exp :| t[i..e] == minus + int_ + frac + exp && IsParts(minus, int_, frac, exp);
        NumberLies(t, m, i, e, minus, int_, frac, exp);
      } else if LoneMinus(t, i) {
        LoneMinusRead(t, m, i);
      }
    }
  }

  lemma LoneMinusRead(t: seq<Byte>, m: Flags, i: nat)
    requires i < |t| && LoneMinus(t, i)
    ensures NumberEnd(t, m, i) == Some(|t|)
  {
  }

  /* Strings. */

  /** `unescaped`, on bytes; `odd` admits the control characters the reader lets pass. */
  predicate IsPlain(b: Byte, odd: bool) {
    b != 0x22 && b != 0x5C && (b >= 0x20 || (odd && b != 0x00 && b != 0x09 && b != 0x0A && b != 0x0D))
  }

  /** What the letters behind a backslash stand for. */
  const ESCAPES: map<Byte, Byte> := map[
    0x22 := 0x22, 0x5C := 0x5C, 0x2F := 0x2F, 0x62 := 0x08, 0x66 := 0x0C, 0x6E := 0x0A, 0x72 := 0x0D, 0x74 := 0x09]

  /** `HEXDIG`, in both cases. */
  const DIGITS: map<Byte, nat> := map[
    0x30 := 0, 0x31 := 1, 0x32 := 2, 0x33 := 3, 0x34 := 4, 0x35 := 5, 0x36 := 6, 0x37 := 7, 0x38 := 8, 0x39 := 9,
    0x61 := 10, 0x62 := 11, 0x63 := 12, 0x64 := 13, 0x65 := 14, 0x66 := 15,
    0x41 := 10, 0x42 := 11, 0x43 := 12, 0x44 := 13, 0x45 := 14, 0x46 := 15]

  /** `%x75 4HEXDIG` */
  predicate IsUnit(s: seq<Byte>) {
    |s| >= 6 && s[0] == 0x5C && s[1] == 0x75 && s[2] in DIGITS && s[3] in DIGITS && s[4] in DIGITS && s[5] in DIGITS
  }

  function UnitValue(s: seq<Byte>): nat
    requires IsUnit(s)
  {
    0x1000 * DIGITS[s[2]] + 0x100 * DIGITS[s[3]] + 0x10 * DIGITS[s[4]] + DIGITS[s[5]]
  }

  /** `char`: how many bytes it takes, and the bytes of the text it stands for. */
  datatype Piece = Piece(length: nat, bytes: seq<Byte>)

  /**
    The first character of a body. The halves of a surrogate pair stand one behind the other,
    and nowhere else.
   */
  function First(s: seq<Byte>, odd: bool): (r: Option<Piece>)
    requires s != []
    ensures r.Some? ==> 0 < r.value.length <= |s|
  {
    if IsPlain(s[0], odd) then Some(Piece(1, [s[0]]))
    else if s[0] == 0x5C && |s| >= 2 && s[1] in ESCAPES then Some(Piece(2, [ESCAPES[s[1]]]))
    else if !IsUnit(s) then None
    else
      var u := UnitValue(s);
      if u < 0xD800 || u > 0xDFFF then Some(Piece(6, Encode(u)))
      else if u < 0xDC00 && IsUnit(s[6..]) && 0xDC00 <= UnitValue(s[6..]) <= 0xDFFF then
        Some(Piece(12, Encode(0x1_0000 + (u - 0xD800) * 0x400 + (UnitValue(s[6..]) - 0xDC00))))
      else None
  }

  /** `*char`: the text a body stands for, if it is one. */
  function Meaning(s: seq<Byte>, odd: bool): Option<seq<Byte>>
    decreases |s|
  {
    if s == [] then Some([])
    else
      var c := First(s, odd);
      if c == None then None
      else
        var rest := Meaning(s[c.value.length..], odd);
        if rest == None then None else Some(c.value.bytes + rest.value)
  }

  lemma DigitsAgree(b: Byte)
    ensures b in DIGITS <==> HexDigit(b).Some?
    ensures b in DIGITS ==> HexDigit(b) == Some(DIGITS[b])
  {
  }

  lemma EscapesAgree(b: Byte)
    ensures b in ESCAPES <==> Letter(b).Some?
    ensures b in ESCAPES ==> Letter(b) == Some(ESCAPES[b]) && b != 0x75
  {
  }

  lemma UnitInside(t: seq<Byte>, i: nat, e: nat)
    requires i <= e <= |t|
    ensures var s := t[i..e];
      IsUnit(s) <==> i + 6 <= e && t[i] == 0x5C && t[i + 1] == 0x75 && Hex4(t, i + 2).Some?
    ensures var s := t[i..e]; IsUnit(s) ==> Hex4(t, i + 2) == Some(UnitValue(s))
  {
    if i + 6 <= e {
      DigitsAgree(t[i + 2]);
      DigitsAgree(t[i + 3]);
      DigitsAgree(t[i + 4]);
      DigitsAgree(t[i + 5]);
    }
    hide HexDigit;
  }

  /** The reader's characters are those of the body, reach as far and stand for the same. */
  lemma CharReach(t: seq<Byte>, i: nat, e: nat)
    requires i < e < |t| && t[i] != 0x22
    ensures var c, f := Char(t, i), First(t[i..e], true);
      if f.Some? then c.Some? && c.value.to == i + f.value.length <= e && c.value.value == f.value.bytes
      else c == None || c.value.to > e
  {
    hide Encode, HexDigit, Hex4, UnitValue, Letter, IsUnit;
    var s := t[i..e];
    UnitInside(t, i, e);
    EscapesAgree(At(t, i + 1));
    if s[0] == 0x5C && i + 6 <= e {
      UnitInside(t, i + 6, e);
      assert s[6..] == t[i + 6..e];
      PairIs();
    }
  }

  lemma PairIs()
    ensures forall u: nat, v: nat :: IsHigh(u) && IsLow(v) ==> Pair(u, v) == 0x1_0000 + (u - 0xD800) * 0x400 + (v - 0xDC00)
  {
  }

  /**
    A string is read exactly where, up to a quote, a body stands by the standard, and as the
    text the body stands for, but for the control characters other than NUL, tab, line feed
    and carriage return, which are read as themselves, and for surrogates out of pairs, which
    are not read.
   */
  lemma {:induction false} StringExact(t: seq<Byte>, i: nat, q: nat, text: seq<Byte>)
    requires i <= q
    ensures (Chars(t, i).Some? && Chars(t, i).value.to == q + 1 && Chars(t, i).value.value == text) <==>
      q < |t| && t[q] == 0x22 && Meaning(t[i..q], true) == Some(text)
    decreases |t| - i, 2
  {
    hide Char, Encode, First;
    if i < q < |t| {
      if t[i] == 0x22 {
        QuoteIsNone(t[i..q]);
      } else {
        CharReach(t, i, q);
        var f := First(t[i..q], true);
        if f.Some? {
          var n, rest, more := f.value.length, Chars(t, i + f.value.length), Meaning(t[i + f.value.length..q], true);
          RestExact(t, i + n, q, rest, more);
          assert t[i..q][n..] == t[i + n..q];
        }
      }
    } else if i == q < |t| {
      assert t[i..q] == [];
    }
  }

  lemma {:induction false} RestExact(t: seq<Byte>, i: nat, q: nat, rest: Option<Read<seq<Byte>>>, more: Option<seq<Byte>>)
    requires i <= q < |t| && rest == Chars(t, i) && more == Meaning(t[i..q], true)
    ensures (rest.Some? && rest.value.to == q + 1) <==> t[q] == 0x22 && more.Some?
    ensures rest.Some? && rest.value.to == q + 1 ==> rest.value.value == more.value
    decreases |t| - i, 3
  {
    hide Chars, Meaning;
    if rest.Some? {
      StringExact(t, i, q, rest.value.value);
    }
    if more.Some? {
      StringExact(t, i, q, more.value);
    }
  }

  lemma QuoteIsNone(s: seq<Byte>)
    requires s != [] && s[0] == 0x22
    ensures First(s, true) == None
  {
  }

  /** The odd control characters are the only ones the standard does not know. */
  lemma {:induction false} BodyOdd(s: seq<Byte>)
    ensures Meaning(s, false) == if forall k :: 0 <= k < |s| ==> s[k] >= 0x20 then Meaning(s, true) else None
    decreases |s|
  {
    hide First;
    if s != [] {
      OddFirst(s);
      var f := First(s, true);
      if f.Some? {
        var n := f.value.length;
        BodyOdd(s[n..]);
        assert s == s[..n] + s[n..];
        assert forall k :: n <= k < |s| ==> s[k] == s[n..][k - n];
      }
    }
  }

  lemma OddFirst(s: seq<Byte>)
    requires s != []
    ensures First(s, false) == if s[0] < 0x20 then None else First(s, true)
    ensures var f := First(s, true); f.Some? && s[0] >= 0x20 ==> forall k :: 0 <= k < f.value.length ==> s[k] >= 0x20
  {
    hide Encode, UnitValue;
    UnitPrintable(s);
    if |s| >= 6 {
      UnitPrintable(s[6..]);
      assert forall k :: 6 <= k < |s| ==> s[k] == s[6..][k - 6];
    }
  }

  lemma UnitPrintable(s: seq<Byte>)
    ensures IsUnit(s) ==> forall k :: 0 <= k < 6 ==> s[k] >= 0x20
  {
  }

  /* Values written and read back. */

  /** A value without the places it was read from; text as code points. */
  datatype Tree =
    | TText(points: seq<nat>)
    | TNumber(digits: seq<Byte>)
    | TTruth(value: bool)
    | TNothing
    | TArray(items: Trees)
    | TMap(members: Entries)

  datatype Trees = NoTrees | MoreTrees(first: Tree, rest: Trees)

  datatype Entries = NoEntries | MoreEntries(key: seq<nat>, value: Tree, rest: Entries)

  predicate AreScalars(points: seq<nat>) {
    forall k :: 0 <= k < |points| ==> IsScalar(points[k])
  }

  ghost predicate Good(tree: Tree) {
    match tree
    case TText(points) => AreScalars(points)
    case TNumber(digits) => IsNumber(digits)
    case TArray(items) => GoodItems(items)
    case TMap(members) => GoodEntries(members)
    case _ => true
  }

  ghost predicate GoodItems(items: Trees) {
    items.NoTrees? || (Good(items.first) && GoodItems(items.rest))
  }

  ghost predicate GoodEntries(members: Entries) {
    members.NoEntries? || (AreScalars(members.key) && Good(members.value) && GoodEntries(members.rest))
  }

  /** Printable characters stand for themselves; the others are escaped. */
  function PointText(p: nat): seq<Byte>
    requires IsScalar(p)
  {
    if 0x20 <= p < 0x7F && p != 0x22 && p != 0x5C then [p] else Escape(p)
  }

  function Body(points: seq<nat>): seq<Byte>
    requires AreScalars(points)
  {
    if points == [] then [] else PointText(points[0]) + Body(points[1..])
  }

  function Quoted(points: seq<nat>): seq<Byte>
    requires AreScalars(points)
  {
    [0x22] + (Body(points) + [0x22])
  }

  function Print(tree: Tree): seq<Byte>
    requires Good(tree)
  {
    match tree
    case TText(points) => Quoted(points)
    case TNumber(digits) => digits
    case TTruth(b) => if b then TRUE else FALSE
    case TNothing => NULL
    case TArray(items) => [0x5B] + PrintItems(items, false)
    case TMap(members) => [0x7B] + PrintEntries(members, false)
  }

  function Comma(comma: bool): seq<Byte> {
    if comma then [0x2C] else []
  }

  function PrintItems(items: Trees, comma: bool): seq<Byte>
    requires GoodItems(items)
  {
    match items
    case NoTrees => [0x5D]
    case MoreTrees(first, rest) => Comma(comma) + (Print(first) + PrintItems(rest, true))
  }

  function PrintEntries(members: Entries, comma: bool): seq<Byte>
    requires GoodEntries(members)
  {
    match members
    case NoEntries => [0x7D]
    case MoreEntries(key, value, rest) =>
      Comma(comma) + (Quoted(key) + ([0x3A] + (Print(value) + PrintEntries(rest, true))))
  }

  /** The value read is the one written. */
  predicate Same(v: Value, tree: Tree) {
    match tree
    case TText(points) => v.data.Text? && AreScalars(points) && v.data.chars == EncodeAll(points)
    case TNumber(digits) => v.data == Number(digits)
    case TTruth(b) => v.data == Truth(b)
    case TNothing => v.data == Nothing
    case TArray(items) => v.data.Array? && SameItems(v.data.items, items)
    case TMap(members) => v.data.Map? && SameEntries(v.data.members, members)
  }

  predicate SameItems(vs: seq<Value>, items: Trees) {
    match items
    case NoTrees => vs == []
    case MoreTrees(first, rest) => vs != [] && Same(vs[0], first) && SameItems(vs[1..], rest)
  }

  predicate SameEntries(ms: seq<Member>, members: Entries) {
    match members
    case NoEntries => ms == []
    case MoreEntries(key, value, rest) =>
      ms != [] && AreScalars(key) && ms[0].key == EncodeAll(key) && Same(ms[0].value, value) && SameEntries(ms[1..], rest)
  }

  lemma {:induction false} BodyBack(t: seq<Byte>, i: nat, points: seq<nat>)
    requires AreScalars(points) && Lies(t, i, Body(points) + [0x22])
    ensures Chars(t, i).Some?
    ensures Chars(t, i).value.value == EncodeAll(points) && Chars(t, i).value.to == i + |Body(points)| + 1
    decreases |points|
  {
    hide Char, Escape, Encode;
    if points == [] {
      assert t[i] == t[i..i + 1][0];
      CharsEnd(t, i);
    } else {
      var x := PointText(points[0]);
      assert Body(points) + [0x22] == x + (Body(points[1..]) + [0x22]);
      LiesApart(t, i, x, Body(points[1..]) + [0x22]);
      PointBack(t, i, points[0]);
      BodyBack(t, i + |x|, points[1..]);
      CharsStep(t, i);
    }
  }

  lemma PointBack(t: seq<Byte>, i: nat, p: nat)
    requires IsScalar(p) && Lies(t, i, PointText(p)) && i + |PointText(p)| < |t|
    ensures t[i] != 0x22 && Char(t, i).Some?
    ensures Char(t, i).value.value == Encode(p) && Char(t, i).value.to == i + |PointText(p)|
  {
    if 0x20 <= p < 0x7F && p != 0x22 && p != 0x5C {
      assert t[i] == t[i..i + 1][0];
      EncodeTable(p);
    } else {
      CharRead(t, i, p);
    }
    hide Char, Encode, Escape;
  }

  lemma QuotedBack(t: seq<Byte>, i: nat, points: seq<nat>)
    requires AreScalars(points) && Lies(t, i, Quoted(points))
    ensures At(t, i) == 0x22 && ReadString(t, i).Some?
    ensures ReadString(t, i).value.value == EncodeAll(points) && ReadString(t, i).value.to == i + |Quoted(points)|
  {
    hide Chars, Body;
    LiesApart(t, i, [0x22], Body(points) + [0x22]);
    assert t[i] == t[i..i + 1][0];
    BodyBack(t, i + 1, points);
  }

  /** What a printed value begins with. */
  lemma PrintFirst(tree: Tree)
    requires Good(tree)
    ensures var x := Print(tree); x != [] && !IsBlank(x[0]) && x[0] !in {0x2C, 0x5D, 0x7D}
    ensures tree.TNumber? ==> Print(tree)[0] == 0x2D || IsDigit(Print(tree)[0])
  {
    hide Body, PrintItems, PrintEntries;
    if tree.TNumber? {
      NumberFirst(tree.digits);
    }
  }

  lemma NumberFirst(s: seq<Byte>)
    requires IsNumber(s)
    ensures s != [] && (s[0] == 0x2D || IsDigit(s[0]))
  {
    var minus, int_, frac, exp :| s == minus + int_ + frac + exp && IsParts(minus, int_, frac, exp);
    assert minus == [] ==> s[0] == int_[0];
  }

  /** The text goes on with what may follow a value. */
  predicate Closed(t: seq<Byte>, m: Flags, e: nat) {
    e == |t| || (e < |t| && Follows(m, t[e]))
  }

  lemma SkipHere(t: seq<Byte>, i: nat, x: seq<Byte>)
    requires Lies(t, i, x) && x != []
    ensures i < |t| && t[i] == x[0] && (!IsBlank(x[0]) ==> Skip(t, i) == i)
  {
    assert t[i] == t[i..i + |x|][0];
  }

  /** Where a comma is due and stands, or none is due, a value is read next. */
  lemma ItemComes(t: seq<Byte>, m: Flags, from: nat, comma: bool, x: seq<Byte>)
    requires x != [] && !IsBlank(x[0]) && x[0] !in {0x2C, 0x5D} && Lies(t, from, Comma(comma) + x)
    ensures var i := from + |Comma(comma)|; i < |t| && ReadItems(t, m, from, comma) == ReadItem(t, m, i)
  {
    hide ReadItem, ReadItems, Skip;
    var i := from + |Comma(comma)|;
    LiesApart(t, from, Comma(comma), x);
    SkipHere(t, i, x);
    ItemsStep(t, m, i, false);
    ItemsStep(t, m, from, comma);
    if comma {
      SkipHere(t, from, [0x2C]);
    }
  }

  lemma ItemRead(t: seq<Byte>, m: Flags, i: nat)
    requires i < |t| && ReadHere(t, m, i).Some?
    ensures var v := ReadHere(t, m, i).value;
      ReadItem(t, m, i) == Before(v.value, v.room, ReadItems(t, m, v.to, true))
  {
    hide ReadHere, ReadItems;
  }

  lemma ItemsEnd(t: seq<Byte>, m: Flags, from: nat, comma: bool)
    requires Lies(t, from, [0x5D])
    ensures ReadItems(t, m, from, comma) == Some(Read([], from + 1, 0))
  {
    hide ReadItems, ReadItem, Skip;
    SkipHere(t, from, [0x5D]);
    ItemsStep(t, m, from, comma);
  }

  /** What is printed behind a value may follow it. */
  lemma BehindItem(t: seq<Byte>, m: Flags, e: nat, rest: Trees)
    requires GoodItems(rest) && Lies(t, e, PrintItems(rest, true))
    ensures Closed(t, m, e)
  {
    var y := PrintItems(rest, true);
    assert t[e] == t[e..e + |y|][0];
  }

  lemma MorePrinted(items: Trees, comma: bool)
    requires items.MoreTrees? && GoodItems(items)
    ensures PrintItems(items, comma) == Comma(comma) + (Print(items.first) + PrintItems(items.rest, true))
  {
  }

  lemma NonePrinted(comma: bool)
    ensures PrintItems(NoTrees, comma) == [0x5D] && SameItems([], NoTrees)
  {
  }

  lemma SameMore(v: Value, vs: seq<Value>, items: Trees)
    requires items.MoreTrees? && Same(v, items.first) && SameItems(vs, items.rest)
    ensures SameItems([v] + vs, items)
  {
    hide Same;
    FirstAndRest(v, vs);
  }

  lemma {:induction false} ItemsBack(t: seq<Byte>, m: Flags, from: nat, comma: bool, items: Trees)
    requires GoodItems(items) && Lies(t, from, PrintItems(items, comma))
    ensures ReadItems(t, m, from, comma).Some?
    ensures ReadItems(t, m, from, comma).value.to == from + |PrintItems(items, comma)|
    ensures SameItems(ReadItems(t, m, from, comma).value.value, items)
    decreases items, 3
  {
    hide ReadItems, ReadItem, ReadHere, Lies, Print, Same, Closed, PrintItems, SameItems, Comma;
    match items
    case NoTrees => NonePrinted(comma); ItemsEnd(t, m, from, comma);
    case MoreTrees(first, rest) =>
      MorePrinted(items, comma);
      var i, x, y := from + |Comma(comma)|, Print(first), PrintItems(rest, true);
      PrintFirst(first);
      LiesApart(t, from, Comma(comma), x + y);
      LiesApart(t, i, x, y);
      LiesFirst(t, from, Comma(comma), x, y);
      ItemComes(t, m, from, comma, x);
      BehindItem(t, m, i + |x|, rest);
      HereBack(t, m, i, first);
      ItemRead(t, m, i);
      ItemsBack(t, m, i + |x|, true, rest);
      SameMore(ReadHere(t, m, i).value.value, ReadItems(t, m, i + |x|, true).value.value, items);
  }

  lemma LiesFirst(t: seq<Byte>, from: nat, c: seq<Byte>, x: seq<Byte>, y: seq<Byte>)
    requires Lies(t, from, c + (x + y))
    ensures Lies(t, from, c + x)
  {
    assert c + (x + y) == (c + x) + y;
    LiesApart(t, from, c + x, y);
  }

  lemma FirstAndRest<T>(x: T, rest: seq<T>)
    ensures ([x] + rest)[0] == x && ([x] + rest)[1..] == rest
  {
  }

  /** The same for members. */
  lemma MemberComes(t: seq<Byte>, m: Flags, from: nat, comma: bool, x: seq<Byte>)
    requires x != [] && x[0] == 0x22 && Lies(t, from, Comma(comma) + x)
    ensures var i := from + |Comma(comma)|;
      i < |t| && t[i] == 0x22 && ReadMembers(t, m, from, comma, false) == ReadMember(t, m, i, false)
  {
    hide ReadMember, ReadMembers, Skip;
    var i := from + |Comma(comma)|;
    LiesApart(t, from, Comma(comma), x);
    SkipHere(t, i, x);
    MembersStep(t, m, i, false, false);
    MembersStep(t, m, from, comma, false);
    if comma {
      SkipHere(t, from, [0x2C]);
    }
  }

  lemma EntriesEnd(t: seq<Byte>, m: Flags, from: nat, comma: bool)
    requires Lies(t, from, [0x7D])
    ensures ReadMembers(t, m, from, comma, false) == Some(Read([], from + 1, 0))
  {
    hide ReadMembers, ReadMember, Skip;
    SkipHere(t, from, [0x7D]);
    MembersStep(t, m, from, comma, false);
  }

  lemma BehindEntry(t: seq<Byte>, m: Flags, e: nat, rest: Entries)
    requires GoodEntries(rest) && Lies(t, e, PrintEntries(rest, true))
    ensures Closed(t, m, e)
  {
    var y := PrintEntries(rest, true);
    assert t[e] == t[e..e + |y|][0];
  }

  /** A key, its colon and a value that can be read. */
  lemma EntryRead(t: seq<Byte>, m: Flags, i: nat, key: seq<nat>, at: nat)
    requires AreScalars(key) && i < |t| && t[i] == 0x22 && Lies(t, i, Quoted(key)) && at == i + |Quoted(key)| + 1
    requires Lies(t, at - 1, [0x3A]) && at < |t| && Skip(t, at) == at && ReadHere(t, m, at).Some?
    ensures var v := ReadHere(t, m, at).value;
      ReadEntry(t, m, i).Some? && ReadEntry(t, m, i).value.value == Member(EncodeAll(key), v.value) &&
      ReadEntry(t, m, i).value.to == v.to
  {
    hide ReadHere, ReadString, Quoted, EncodeAll, Skip;
    QuotedBack(t, i, key);
    SkipHere(t, at - 1, [0x3A]);
  }

  lemma {:induction false} EntryBack(t: seq<Byte>, m: Flags, i: nat, key: seq<nat>, value: Tree, rest: Entries)
    requires AreScalars(key) && Good(value) && GoodEntries(rest) && i < |t| && t[i] == 0x22
    requires Lies(t, i, Quoted(key) + ([0x3A] + (Print(value) + PrintEntries(rest, true))))
    ensures var e := i + |Quoted(key)| + 1 + |Print(value)|;
      Lies(t, e, PrintEntries(rest, true)) && ReadEntry(t, m, i).Some? && ReadEntry(t, m, i).value.to == e &&
      ReadEntry(t, m, i).value.value.key == EncodeAll(key) && Same(ReadEntry(t, m, i).value.value.value, value)
    decreases value, 3
  {
    hide ReadEntry, ReadHere, Lies, Print, Same, Closed, Quoted, PrintEntries, EncodeAll, Skip;
    var at, x, y := i + |Quoted(key)| + 1, Print(value), PrintEntries(rest, true);
    PrintFirst(value);
    LiesApart(t, i, Quoted(key), [0x3A] + (x + y));
    LiesApart(t, at - 1, [0x3A], x + y);
    LiesApart(t, at, x, y);
    SkipHere(t, at, x);
    BehindEntry(t, m, at + |x|, rest);
    HereBack(t, m, at, value);
    EntryRead(t, m, i, key, at);
  }

  lemma {:induction false} EntriesBack(t: seq<Byte>, m: Flags, from: nat, comma: bool, members: Entries)
    requires GoodEntries(members) && Lies(t, from, PrintEntries(members, comma))
    ensures ReadMembers(t, m, from, comma, false).Some?
    ensures ReadMembers(t, m, from, comma, false).value.to == from + |PrintEntries(members, comma)|
    ensures SameEntries(ReadMembers(t, m, from, comma, false).value.value, members)
    decreases members, 3
  {
    hide ReadMembers, ReadMember, ReadEntry, ReadHere, Lies, Print, Same, Closed, Quoted, EncodeAll;
    match members
    case NoEntries => EntriesEnd(t, m, from, comma);
    case MoreEntries(key, value, rest) =>
      var i, x := from + |Comma(comma)|, Quoted(key);
      var y := [0x3A] + (Print(value) + PrintEntries(rest, true));
      var e := i + |x| + 1 + |Print(value)|;
      QuoteFirst(key);
      LiesApart(t, from, Comma(comma), x + y);
      LiesFirst(t, from, Comma(comma), x, y);
      MemberComes(t, m, from, comma, x);
      EntryBack(t, m, i, key, value, rest);
      MemberStep(t, m, i, false);
      EntriesBack(t, m, e, true, rest);
      FirstAndRest(ReadEntry(t, m, i).value.value, ReadMembers(t, m, e, true, false).value.value);
  }

  lemma QuoteFirst(points: seq<nat>)
    requires AreScalars(points)
    ensures Quoted(points) != [] && Quoted(points)[0] == 0x22
  {
  }

  lemma {:induction false} HereBack(t: seq<Byte>, m: Flags, i: nat, tree: Tree)
    requires Good(tree) && Lies(t, i, Print(tree)) && Closed(t, m, i + |Print(tree)|)
    ensures i < |t| && ReadHere(t, m, i).Some?
    ensures ReadHere(t, m, i).value.to == i + |Print(tree)| && Same(ReadHere(t, m, i).value.value, tree)
    decreases tree, 2
  {
    hide ReadHere, ReadMembers, ReadItems, Skip, PrintItems, PrintEntries, GoodItems, GoodEntries, Lies, Closed;
    if tree.TArray? {
      OpensWith(t, i, 0x5B, PrintItems(tree.items, false));
      ArrayStep(t, m, i);
      ItemsBack(t, m, i + 1, false, tree.items);
    } else if tree.TMap? {
      OpensWith(t, i, 0x7B, PrintEntries(tree.members, false));
      MapStep(t, m, i);
      EntriesBack(t, m, i + 1, false, tree.members);
    } else {
      LeafBack(t, m, i, tree);
    }
  }

  lemma OpensWith(t: seq<Byte>, i: nat, b: Byte, x: seq<Byte>)
    requires Lies(t, i, [b] + x)
    ensures i < |t| && t[i] == b && Lies(t, i + 1, x)
  {
    LiesApart(t, i, [b], x);
    assert t[i] == t[i..i + 1][0];
  }

  lemma ArrayStep(t: seq<Byte>, m: Flags, i: nat)
    requires i < |t| && t[i] == 0x5B
    ensures ReadHere(t, m, i) == AsArray(i, ReadItems(t, m, i + 1, false))
  {
    hide ReadItems;
  }

  lemma MapStep(t: seq<Byte>, m: Flags, i: nat)
    requires i < |t| && t[i] == 0x7B
    ensures ReadHere(t, m, i) == AsMap(i, ReadMembers(t, m, i + 1, false, false))
  {
    hide ReadMembers;
  }

  lemma LeafBack(t: seq<Byte>, m: Flags, i: nat, tree: Tree)
    requires Good(tree) && !tree.TArray? && !tree.TMap? && Lies(t, i, Print(tree)) && Closed(t, m, i + |Print(tree)|)
    ensures i < |t| && ReadHere(t, m, i).Some?
    ensures ReadHere(t, m, i).value.to == i + |Print(tree)| && Same(ReadHere(t, m, i).value.value, tree)
  {
    PrintFirst(tree);
    SkipHere(t, i, Print(tree));
    HereStep(t, m, i);
    hide ReadHere, ReadMembers, ReadItems, ReadString, IsNumber, EncodeAll, Skip, Body, Quoted, NumberEnd, ReadWord;
    match tree
    case TText(points) => QuotedBack(t, i, points);
    case TNumber(digits) =>
      NumberExact(t, m, i, i + |digits|);
      NumberStep(t, m, i);
    case _ => WordBack(t, i, tree);
  }

  lemma WordBack(t: seq<Byte>, i: nat, tree: Tree)
    requires (tree.TTruth? || tree.TNothing?) && Lies(t, i, Print(tree))
    ensures i < |t| && t[i] in {0x74, 0x66, 0x6E}
    ensures ReadWord(t, i).Some? && ReadWord(t, i).value.to == i + |Print(tree)| && Same(ReadWord(t, i).value.value, tree)
  {
    var x := Print(tree);
    assert t[i] == t[i..i + |x|][0];
    assert Has(t, i, x);
    if Has(t, i, TRUE) {
      assert t[i] == t[i..i + 4][0];
    }
    if Has(t, i, FALSE) {
      assert t[i] == t[i..i + 5][0];
    }
  }

  /** Every value, written down, is read back as itself, by every mode that takes it at the top. */
  lemma ValueRoundTrip(tree: Tree, m: Flags)
    requires Good(tree) && (m.global ==> tree.TMap?)
    ensures var t := Print(tree);
      ReadText(t, m).Some? && ReadText(t, m).value.to == |t| && Same(ReadText(t, m).value.value, tree)
  {
    hide ReadHere, Print, Same, ReadMembers;
    var t := Print(tree);
    assert t[0..|t|] == t;
    PrintFirst(tree);
    SkipHere(t, 0, t);
    MapFirst(tree);
    HereBack(t, m, 0, tree);
  }

  lemma MapFirst(tree: Tree)
    requires Good(tree)
    ensures tree.TMap? ==> Print(tree) != [] && Print(tree)[0] == 0x7B
  {
  }

  /** Texts on which the first pass looks behind the terminator: a digit and an exponent letter. */
  lemma CutAtExponent(d: Byte, e: Byte)
    requires IsDigit(d) && (e == 0x65 || e == 0x45)
    ensures CutText([d, e], MODE_STRICT) && ReadText([d, e], MODE_STRICT) == None
  {
    var t := [d, e];
    assert Digits(t, 1) == 1;
    assert Digits(t, 0) == 1;
    CutTextIsNone(t, MODE_STRICT);
  }

  /** `k` arrays in one another, the innermost one empty. */
  function Nested(k: nat): Tree
    requires k > 0
  {
    TArray(if k == 1 then NoTrees else MoreTrees(Nested(k - 1), NoTrees))
  }

  lemma {:induction false} NestedGood(k: nat)
    requires k > 0
    ensures Good(Nested(k))
  {
    if k > 1 {
      NestedGood(k - 1);
    }
  }

  lemma {:induction false} NestedPlaces(v: Value, k: nat)
    requires k > 0 && Same(v, Nested(k))
    ensures Places(v) == if k == 1 then 1 else k + 1
    decreases k
  {
    var items := v.data.items;
    if k > 1 {
      NestedPlaces(items[0], k - 1);
      assert SameItems(items[1..], NoTrees) && items == [items[0]] + items[1..];
      assert items[..0] == [];
      assert PlacesOfItems([]) == 1;
    }
  }

  /** Where no place of the exempt stack is in use, arrays may be nested fifteen deep and no deeper. */
  lemma NestedArrays(k: nat, m: Flags)
    requires k > 0 && !m.global
    ensures Good(Nested(k))
    ensures var r := ReadText(Print(Nested(k)), m);
      r.Some? && (Places(r.value.value) <= EXEMPT_MAX <==> k <= 15)
  {
    hide Print, Same, ReadText, Places;
    NestedGood(k);
    ValueRoundTrip(Nested(k), m);
    NestedPlaces(ReadText(Print(Nested(k)), m).value.value, k);
  }

  /** `k` maps in one another, each under an empty key, the innermost one empty. */
  function Boxed(k: nat): Tree
    requires k > 0
  {
    TMap(if k == 1 then NoEntries else MoreEntries([], Boxed(k - 1), NoEntries))
  }

  lemma {:induction false} BoxedGood(k: nat)
    requires k > 0
    ensures Good(Boxed(k))
  {
    if k > 1 {
      BoxedGood(k - 1);
    }
  }

  lemma {:induction false} BoxedPlaces(v: Value, k: nat)
    requires k > 0 && Same(v, Boxed(k))
    ensures Places(v) == k
    decreases k
  {
    var members := v.data.members;
    if k > 1 {
      BoxedPlaces(members[0].value, k - 1);
      assert SameEntries(members[1..], NoEntries) && members == [members[0]] + members[1..];
      assert members[..0] == [];
      assert PlacesOfMembers([]) == 1;
    }
  }

  /** Maps, whose values take a place only once they are built, may be nested sixteen deep. */
  lemma NestedMaps(k: nat, m: Flags)
    requires k > 0
    ensures Good(Boxed(k))
    ensures var r := ReadText(Print(Boxed(k)), m);
      r.Some? && (Places(r.value.value) <= EXEMPT_MAX <==> k <= 16)
  {
    hide Print, Same, ReadText, Places;
    BoxedGood(k);
    ValueRoundTrip(Boxed(k), m);
    BoxedPlaces(ReadText(Print(Boxed(k)), m).value.value, k);
  }
}
