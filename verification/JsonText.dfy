/**
  The texts of RFC 8259, by its own productions, and the values they stand for: what strict
  mode reads is exactly these, but for the deviations in numbers and strings.
 */
module JsonText {
  import opened Wrappers
  import opened Utf8
  import opened JsonGrammar
  import opened JsonReader
  import opened JsonStandard

  /** `ws`, from `a` to `b`. */
  predicate Ws(t: seq<Byte>, a: nat, b: nat) {
    a <= b <= |t| && forall k :: a <= k < b ==> t[k] in {0x20, 0x09, 0x0A, 0x0D}
  }

  /** `string`, its quotes included. */
  predicate Quotes(t: seq<Byte>, a: nat, b: nat, text: seq<Byte>) {
    a + 2 <= b <= |t| && t[a] == 0x22 && t[b - 1] == 0x22 && Meaning(t[a + 1..b - 1], true) == Some(text)
  }

  /** `value`: this one stands where it says. A minus that ends the text passes for a number. */
  ghost predicate Stands(t: seq<Byte>, v: Value)
    decreases v
  {
    v.from < v.to <= |t| &&
    match v.data
    case Text(chars) => Quotes(t, v.from, v.to, chars)
    case Number(digits) =>
      digits == t[v.from..v.to] && (IsNumber(digits) || (digits == [0x2D] && v.to == |t|))
    case Truth(b) => t[v.from..v.to] == if b then [0x74, 0x72, 0x75, 0x65] else [0x66, 0x61, 0x6C, 0x73, 0x65]
    case Nothing => t[v.from..v.to] == [0x6E, 0x75, 0x6C, 0x6C]
    case Array(items) => v.to - v.from >= 2 && t[v.from] == 0x5B && t[v.to - 1] == 0x5D && Items(t, items, v.from + 1, v.to - 1, false)
    case Map(members) => v.to - v.from >= 2 && t[v.from] == 0x7B && t[v.to - 1] == 0x7D && Members(t, members, v.from + 1, v.to - 1, false)
  }

  /** What stands in front of a value: `ws`, behind a `value-separator` if it is not the first. */
  ghost predicate Separated(t: seq<Byte>, a: nat, b: nat, comma: bool) {
    if comma then exists c: nat :: a <= c < b && Ws(t, a, c) && c < |t| && t[c] == 0x2C && Ws(t, c + 1, b) else Ws(t, a, b)
  }

  /** The values of an array and what stands between them, from `a` to `b`; `comma` says that one has just ended. */
  ghost predicate Items(t: seq<Byte>, items: seq<Value>, a: nat, b: nat, comma: bool)
    decreases items
  {
    if items == [] then Ws(t, a, b)
    else Separated(t, a, items[0].from, comma) && Stands(t, items[0]) && Items(t, items[1..], items[0].to, b, true)
  }

  /** `member`, up to its value: the key and the colon. */
  ghost predicate Keyed(t: seq<Byte>, k: nat, to: nat, key: seq<Byte>) {
    exists e: nat, c: nat :: Quotes(t, k, e, key) && Ws(t, e, c) && c < |t| && t[c] == 0x3A && Ws(t, c + 1, to)
  }

  ghost predicate Members(t: seq<Byte>, members: seq<Member>, a: nat, b: nat, comma: bool)
    decreases members
  {
    if members == [] then Ws(t, a, b)
    else
      var v := members[0].value;
      (exists k: nat :: Separated(t, a, k, comma) && Keyed(t, k, v.from, members[0].key)) &&
      Stands(t, v) && Members(t, members[1..], v.to, b, true)
  }

  /** `JSON-text = ws value ws` */
  ghost predicate IsText(t: seq<Byte>, v: Value) {
    Ws(t, 0, v.from) && Stands(t, v) && Ws(t, v.to, |t|)
  }

  lemma BlankIs(b: Byte)
    ensures IsBlank(b) <==> b in {0x20, 0x09, 0x0A, 0x0D}
  {
  }

  lemma DigitIs(b: Byte)
    ensures IsDigit(b) <==> b in {0x30, 0x31, 0x32, 0x33, 0x34, 0x35, 0x36, 0x37, 0x38, 0x39}
  {
  }

  lemma {:induction false} SkipWs(t: seq<Byte>, a: nat)
    requires a <= |t|
    ensures Ws(t, a, Skip(t, a))
    decreases |t| - a
  {
    if a < |t| && IsBlank(t[a]) {
      SkipWs(t, a + 1);
    }
  }

  lemma {:induction false} WsSkipped(t: seq<Byte>, a: nat, b: nat)
    requires Ws(t, a, b) && (b == |t| || t[b] !in {0x20, 0x09, 0x0A, 0x0D})
    ensures Skip(t, a) == b
    decreases b - a
  {
    if a < b {
      WsSkipped(t, a + 1, b);
    }
  }

  /** A value does not begin with a blank, nor with what ends or separates values. */
  lemma StandsFirst(t: seq<Byte>, v: Value)
    requires Stands(t, v)
    ensures v.from < v.to <= |t|
    ensures t[v.from] !in {0x20, 0x09, 0x0A, 0x0D, 0x5D, 0x7D, 0x2C, 0x3A}
    ensures v.data.Number? <==> t[v.from] == 0x2D || IsDigit(t[v.from])
  {
    hide Items, Members, Meaning;
    if v.data.Number? {
      NumberBegins(t[v.from..v.to]);
    } else if v.data.Truth? || v.data.Nothing? {
      assert t[v.from] == t[v.from..v.to][0];
    }
  }

  lemma NumberBegins(s: seq<Byte>)
    requires IsNumber(s) || s == [0x2D]
    ensures s != [] && (s[0] == 0x2D || IsDigit(s[0]))
  {
    if IsNumber(s) {
      var minus, int_, frac, exp :| s == minus + int_ + frac + exp && IsParts(minus, int_, frac, exp);
      assert s[0] == if minus == [] then int_[0] else minus[0];
    }
  }

  /* What stands is read. */

  /** What may follow a value that stands, so that it is read up to there. */
  predicate Ends(t: seq<Byte>, e: nat) {
    e <= |t| && (e < |t| ==> t[e] in {0x20, 0x09, 0x0A, 0x0D, 0x5D, 0x7D, 0x2C})
  }

  lemma {:induction false} StandsRead(t: seq<Byte>, v: Value)
    requires Stands(t, v) && Ends(t, v.to)
    ensures var r := ReadHere(t, MODE_STRICT, v.from); r.Some? && r.value.value == v && r.value.to == v.to
    decreases v
  {
    hide ReadHere, Items, Members, Meaning, ReadItems, ReadMembers, ReadString, ReadNumber, IsNumber;
    StandsFirst(t, v);
    HereStep(t, MODE_STRICT, v.from);
    match v.data
    case Text(chars) => QuotesRead(t, v.from, v.to, chars);
    case Number(digits) => NumberRead(t, v.from, v.to);
    case Truth(b) => WordRead(t, v);
    case Nothing => WordRead(t, v);
    case Array(items) => ItemsRead(t, items, v.from + 1, v.to - 1, false);
    case Map(members) => MembersRead(t, members, v.from + 1, v.to - 1, false);
  }

  lemma QuotesRead(t: seq<Byte>, a: nat, b: nat, text: seq<Byte>)
    requires Quotes(t, a, b, text)
    ensures var r := ReadString(t, a); r.Some? && r.value.value == text && r.value.to == b
  {
    hide Chars, Meaning;
    StringExact(t, a + 1, b - 1, text);
  }

  lemma NumberRead(t: seq<Byte>, a: nat, b: nat)
    requires a < b <= |t| && (t[a] == 0x2D || IsDigit(t[a])) && Ends(t, b)
    requires IsNumber(t[a..b]) || (t[a..b] == [0x2D] && b == |t|)
    ensures var r := ReadNumber(t, MODE_STRICT, a); r.Some? && r.value.value == Value(a, b, Number(t[a..b])) && r.value.to == b
  {
    hide NumberEnd, IsNumber;
    NumberExact(t, MODE_STRICT, a, b);
    assert t[a..b] == [0x2D] ==> t[a] == t[a..b][0];
    NumberStep(t, MODE_STRICT, a);
  }

  lemma WordRead(t: seq<Byte>, v: Value)
    requires Stands(t, v) && (v.data.Truth? || v.data.Nothing?)
    ensures var r := ReadWord(t, v.from); r.Some? && r.value.value == v && r.value.to == v.to
    ensures t[v.from] in {0x74, 0x66, 0x6E}
  {
    var s := t[v.from..v.to];
    assert t[v.from] == s[0];
    WordAt(t, v.from, v.to);
  }

  lemma WordAt(t: seq<Byte>, a: nat, b: nat)
    requires a < b <= |t|
    ensures t[a..b] == [0x74, 0x72, 0x75, 0x65] ==> ReadWord(t, a) == Some(Read(Value(a, b, Truth(true)), b, 0))
    ensures t[a..b] == [0x66, 0x61, 0x6C, 0x73, 0x65] ==> ReadWord(t, a) == Some(Read(Value(a, b, Truth(false)), b, 0))
    ensures t[a..b] == [0x6E, 0x75, 0x6C, 0x6C] ==> ReadWord(t, a) == Some(Read(Value(a, b, Nothing), b, 0))
  {
    assert t[a] == t[a..b][0];
    WordFirst(t, a);
  }

  lemma WordFirst(t: seq<Byte>, a: nat)
    requires a < |t|
    ensures (Has(t, a, TRUE) ==> t[a] == 0x74) && (Has(t, a, FALSE) ==> t[a] == 0x66) && (Has(t, a, NULL) ==> t[a] == 0x6E)
  {
    if Has(t, a, TRUE) {
      assert t[a] == t[a..a + 4][0];
    }
    if Has(t, a, FALSE) {
      assert t[a] == t[a..a + 5][0];
    }
    if Has(t, a, NULL) {
      assert t[a] == t[a..a + 4][0];
    }
  }

  /** Behind what separates values the next one begins. */
  lemma SeparatedSkipped(t: seq<Byte>, a: nat, b: nat, comma: bool)
    requires Separated(t, a, b, comma) && b < |t| && t[b] !in {0x20, 0x09, 0x0A, 0x0D} && a <= |t|
    ensures if comma then Skip(t, a) < |t| && t[Skip(t, a)] == 0x2C && Skip(t, Skip(t, a) + 1) == b else Skip(t, a) == b
    ensures comma ==> Ends(t, a)
  {
    hide Skip;
    if comma {
      var c: nat :| a <= c < b && Ws(t, a, c) && c < |t| && t[c] == 0x2C && Ws(t, c + 1, b);
      WsSkipped(t, a, c);
      WsSkipped(t, c + 1, b);
    } else {
      WsSkipped(t, a, b);
    }
  }

  lemma {:induction false} ItemsRead(t: seq<Byte>, items: seq<Value>, a: nat, b: nat, comma: bool)
    requires Items(t, items, a, b, comma) && b < |t| && t[b] == 0x5D && a <= |t|
    ensures var r := ReadItems(t, MODE_STRICT, a, comma); r.Some? && r.value.value == items && r.value.to == b + 1
    ensures comma ==> Ends(t, a)
    decreases items
  {
    hide ReadItems, ReadItem, ReadHere, Stands, Skip, Separated;
    ItemsStep(t, MODE_STRICT, a, comma);
    if items == [] {
      WsSkipped(t, a, b);
    } else {
      var v, rest := items[0], items[1..];
      StandsFirst(t, v);
      SeparatedSkipped(t, a, v.from, comma);
      ItemsRead(t, rest, v.to, b, true);
      StandsRead(t, v);
      OneItem(t, v.from);
      assert [v] + rest == items;
    }
  }

  lemma OneItem(t: seq<Byte>, i: nat)
    requires i < |t|
    ensures ReadItem(t, MODE_STRICT, i) ==
      var v := ReadHere(t, MODE_STRICT, i);
      if v == None then None
      else Before(v.value.value, v.value.room, ReadItems(t, MODE_STRICT, v.value.to, true))
  {
    hide ReadHere, ReadItems;
  }

  lemma {:induction false} MembersRead(t: seq<Byte>, members: seq<Member>, a: nat, b: nat, comma: bool)
    requires Members(t, members, a, b, comma) && b < |t| && t[b] == 0x7D && a <= |t|
    ensures var r := ReadMembers(t, MODE_STRICT, a, comma, false); r.Some? && r.value.value == members && r.value.to == b + 1
    ensures comma ==> Ends(t, a)
    decreases members
  {
    hide ReadMembers, ReadMember, ReadEntry, ReadHere, Stands, Skip, Separated, Keyed;
    MembersStep(t, MODE_STRICT, a, comma, false);
    if members == [] {
      WsSkipped(t, a, b);
    } else {
      var v, rest := members[0].value, members[1..];
      var k: nat :| Separated(t, a, k, comma) && Keyed(t, k, v.from, members[0].key);
      StandsFirst(t, v);
      KeyBegins(t, k, v.from, members[0].key);
      SeparatedSkipped(t, a, k, comma);
      MembersRead(t, rest, v.to, b, true);
      StandsRead(t, v);
      EntryRead(t, k, v, members[0].key);
      MemberStep(t, MODE_STRICT, k, false);
      assert [members[0]] + rest == members;
    }
  }

  lemma KeyBegins(t: seq<Byte>, k: nat, to: nat, key: seq<Byte>)
    requires Keyed(t, k, to, key)
    ensures k < |t| && t[k] == 0x22
  {
  }

  lemma EntryRead(t: seq<Byte>, k: nat, v: Value, key: seq<Byte>)
    requires Keyed(t, k, v.from, key) && k < |t| && v.from < |t| && t[v.from] !in {0x20, 0x09, 0x0A, 0x0D}
    requires var r := ReadHere(t, MODE_STRICT, v.from); r.Some? && r.value.value == v && r.value.to == v.to
    ensures var e := ReadEntry(t, MODE_STRICT, k); e.Some? && e.value.value == Member(key, v) && e.value.to == v.to
  {
    hide ReadHere, Skip, Meaning;
    var e: nat, c: nat :| Quotes(t, k, e, key) && Ws(t, e, c) && c < |t| && t[c] == 0x3A && Ws(t, c + 1, v.from);
    QuotesRead(t, k, e, key);
    WsSkipped(t, e, c);
    WsSkipped(t, c + 1, v.from);
    hide ReadString;
    assert ReadKey(t, MODE_STRICT, k) == ReadString(t, k);
    assert ReadColon(t, MODE_STRICT, e) == Some(c + 1);
    ValueStep(t, MODE_STRICT, c + 1);
    EntryStep(t, MODE_STRICT, k);
  }

  /** What is a text by the standard is read in strict mode, as the value that stands there. */
  lemma TextRead(t: seq<Byte>, v: Value)
    requires IsText(t, v)
    ensures var r := ReadText(t, MODE_STRICT); r.Some? && r.value.value == v
  {
    hide ReadHere, Stands, Skip;
    StandsFirst(t, v);
    WsSkipped(t, 0, v.from);
    WsSkipped(t, v.to, |t|);
    StandsRead(t, v);
    ValueStep(t, MODE_STRICT, 0);
  }

  /* What is read stands there. */

  lemma {:induction false} ReadStands(t: seq<Byte>, i: nat)
    requires i < |t| && ReadHere(t, MODE_STRICT, i).Some?
    ensures var r := ReadHere(t, MODE_STRICT, i).value; r.value.from == i && r.value.to == r.to && Stands(t, r.value)
    decreases |t| - i, 0
  {
    hide ReadHere, Items, Members, ReadItems, ReadMembers, ReadString, ReadNumber, ReadWord, IsNumber;
    HereStep(t, MODE_STRICT, i);
    if t[i] == 0x22 {
      QuotesStand(t, i);
    } else if t[i] == 0x7B {
      MembersStand(t, i + 1, false);
    } else if t[i] == 0x5B {
      ItemsStand(t, i + 1, false);
    } else if t[i] == 0x2D || IsDigit(t[i]) {
      NumberStands(t, i);
    } else {
      WordStands(t, i);
    }
  }

  lemma QuotesStand(t: seq<Byte>, i: nat)
    requires i < |t| && t[i] == 0x22 && ReadString(t, i).Some?
    ensures var r := ReadString(t, i).value; Quotes(t, i, r.to, r.value)
  {
    hide Meaning, Chars;
    var r := Chars(t, i + 1).value;
    StringExact(t, i + 1, r.to - 1, r.value);
  }

  lemma NumberStands(t: seq<Byte>, i: nat)
    requires i < |t| && (t[i] == 0x2D || IsDigit(t[i])) && ReadNumber(t, MODE_STRICT, i).Some?
    ensures var r := ReadNumber(t, MODE_STRICT, i).value;
      && i < r.to <= |t| && r.value == Value(i, r.to, Number(t[i..r.to]))
      && (IsNumber(t[i..r.to]) || (t[i..r.to] == [0x2D] && r.to == |t|))
  {
    hide NumberEnd, IsNumber;
    NumberStep(t, MODE_STRICT, i);
    NumberExact(t, MODE_STRICT, i, NumberEnd(t, MODE_STRICT, i).value);
  }

  lemma WordStands(t: seq<Byte>, i: nat)
    requires i < |t| && ReadWord(t, i).Some?
    ensures var r := ReadWord(t, i).value; r.value.from == i && r.value.to == r.to && Stands(t, r.value)
  {
  }

  lemma SkippedSeparated(t: seq<Byte>, a: nat, comma: bool)
    requires a <= |t| && Skip(t, a) < |t| && (comma ==> t[Skip(t, a)] == 0x2C && Skip(t, Skip(t, a) + 1) <= |t|)
    ensures Separated(t, a, if comma then Skip(t, Skip(t, a) + 1) else Skip(t, a), comma)
  {
    hide Skip;
    SkipWs(t, a);
    if comma {
      SkipWs(t, Skip(t, a) + 1);
    }
  }

  lemma {:induction false} ItemsStand(t: seq<Byte>, a: nat, comma: bool)
    requires a <= |t| && ReadItems(t, MODE_STRICT, a, comma).Some?
    ensures var r := ReadItems(t, MODE_STRICT, a, comma).value;
      a < r.to <= |t| && t[r.to - 1] == 0x5D && Items(t, r.value, a, r.to - 1, comma)
    decreases |t| - a, 1
  {
    hide ReadItems, ReadItem, ReadHere, Stands, Skip, Separated;
    ItemsStep(t, MODE_STRICT, a, comma);
    SkipWs(t, a);
    if t[Skip(t, a)] != 0x5D {
      var i := if comma then Skip(t, Skip(t, a) + 1) else Skip(t, a);
      SkippedSeparated(t, a, comma);
      OneItem(t, i);
      ReadStands(t, i);
      var v := ReadHere(t, MODE_STRICT, i).value;
      ItemsStand(t, v.to, true);
      var rest := ReadItems(t, MODE_STRICT, v.to, true).value.value;
      assert ([v.value] + rest)[0] == v.value && ([v.value] + rest)[1..] == rest;
    }
  }

  lemma {:induction false} MembersStand(t: seq<Byte>, a: nat, comma: bool)
    requires a <= |t| && ReadMembers(t, MODE_STRICT, a, comma, false).Some?
    ensures var r := ReadMembers(t, MODE_STRICT, a, comma, false).value;
      a < r.to <= |t| && t[r.to - 1] == 0x7D && Members(t, r.value, a, r.to - 1, comma)
    decreases |t| - a, 1
  {
    hide ReadMembers, ReadMember, ReadEntry, ReadHere, Stands, Skip, Separated, Keyed;
    MembersStep(t, MODE_STRICT, a, comma, false);
    SkipWs(t, a);
    if t[Skip(t, a)] != 0x7D {
      var k := if comma then Skip(t, Skip(t, a) + 1) else Skip(t, a);
      SkippedSeparated(t, a, comma);
      MemberStep(t, MODE_STRICT, k, false);
      EntryStands(t, k);
      var e := ReadEntry(t, MODE_STRICT, k).value;
      MembersStand(t, e.to, true);
      var rest := ReadMembers(t, MODE_STRICT, e.to, true, false).value.value;
      assert ([e.value] + rest)[0] == e.value && ([e.value] + rest)[1..] == rest;
    }
  }

  lemma {:induction false} EntryStands(t: seq<Byte>, k: nat)
    requires k < |t| && ReadEntry(t, MODE_STRICT, k).Some?
    ensures var e := ReadEntry(t, MODE_STRICT, k).value;
      k < e.to <= |t| && Keyed(t, k, e.value.value.from, e.value.key) && e.value.value.to == e.to && Stands(t, e.value.value)
    decreases |t| - k, 0
  {
    hide ReadHere, Skip, Stands, ReadString, ReadValue;
    EntryStep(t, MODE_STRICT, k);
    assert ReadKey(t, MODE_STRICT, k) == ReadString(t, k);
    var key := ReadString(t, k).value;
    StringBegins(t, k);
    QuotesStand(t, k);
    var c := Skip(t, key.to);
    SkipWs(t, key.to);
    assert ReadColon(t, MODE_STRICT, key.to) == Some(c + 1);
    ValueStep(t, MODE_STRICT, c + 1);
    SkipWs(t, c + 1);
    ReadStands(t, Skip(t, c + 1));
  }

  lemma StringBegins(t: seq<Byte>, k: nat)
    requires ReadString(t, k).Some?
    ensures k < |t| && t[k] == 0x22
  {
  }

  /**
    Strict mode reads exactly the texts of the standard, each as the value that stands there:
    no more, no less, and no other value.
   */
  lemma StrictExact(t: seq<Byte>, v: Value)
    ensures (ReadText(t, MODE_STRICT).Some? && ReadText(t, MODE_STRICT).value.value == v) <==> IsText(t, v)
  {
    if IsText(t, v) {
      TextRead(t, v);
    }
    if ReadText(t, MODE_STRICT).Some? {
      ReadIsText(t);
    }
  }

  lemma ReadIsText(t: seq<Byte>)
    requires ReadText(t, MODE_STRICT).Some?
    ensures IsText(t, ReadText(t, MODE_STRICT).value.value)
  {
    hide ReadHere, Stands, Skip;
    ValueStep(t, MODE_STRICT, 0);
    SkipWs(t, 0);
    ReadStands(t, Skip(t, 0));
    SkipWs(t, ReadText(t, MODE_STRICT).value.to);
  }

  /* What each of the other modes' flags admits. */

  /** `{"a":1,}` */
  const TRAILING: seq<Byte> := [0x7B, 0x22, 0x61, 0x22, 0x3A, 0x31, 0x2C, 0x7D]
  /** `{"a":1 "b":1}` */
  const BARE: seq<Byte> := [0x7B, 0x22, 0x61, 0x22, 0x3A, 0x31, 0x20, 0x22, 0x62, 0x22, 0x3A, 0x31, 0x7D]
  /** `{a:1}` */
  const UNQUOTED: seq<Byte> := [0x7B, 0x61, 0x3A, 0x31, 0x7D]
  /** `{"a"=1}` */
  const ASSIGNED: seq<Byte> := [0x7B, 0x22, 0x61, 0x22, 0x3D, 0x31, 0x7D]
  /** `"a":1` */
  const OPEN: seq<Byte> := [0x22, 0x61, 0x22, 0x3A, 0x31]

  lemma OneRead(t: seq<Byte>, m: Flags, i: nat)
    requires i < |t| && t[i] == 0x31 && At(t, i + 1) in {0x00, 0x20, 0x2C, 0x7D} && (At(t, i + 1) == 0 ==> i + 1 == |t|)
    ensures ReadHere(t, m, i) == Some(Read(Value(i, i + 1, Number([0x31])), i + 1, 2))
    ensures ReadValue(t, m, i) == ReadHere(t, m, i)
  {
    assert Digits(t, i + 1) == i + 1;
    assert Whole(t, i) == Some(i + 1) && Fraction(t, i + 1) == Some(i + 1) && Exponent(t, i + 1) == Some(i + 1);
    assert t[i..i + 1] == [0x31];
    hide ReadMembers, ReadItems;
    ValueStep(t, m, i);
  }

  lemma KeyRead(t: seq<Byte>, i: nat)
    requires i + 2 < |t| && t[i] == 0x22 && t[i + 1] in {0x61, 0x62} && t[i + 2] == 0x22
    ensures ReadString(t, i) == Some(Read([t[i + 1]], i + 3, 2))
  {
    assert Chars(t, i + 2) == Some(Read([], i + 3, 1));
    assert Char(t, i + 1) == Some(Read([t[i + 1]], i + 2, 1));
    assert [t[i + 1]] + [] == [t[i + 1]];
  }

  /** A quoted key of one letter, a colon and a one. */
  lemma MemberRead(t: seq<Byte>, m: Flags, i: nat)
    requires i + 4 < |t| && t[i] == 0x22 && t[i + 1] in {0x61, 0x62} && t[i + 2] == 0x22 && t[i + 3] == 0x3A && t[i + 4] == 0x31
    requires At(t, i + 5) in {0x00, 0x20, 0x2C, 0x7D} && (At(t, i + 5) == 0 ==> i + 5 == |t|)
    ensures ReadEntry(t, m, i) == Some(Read(Member([t[i + 1]], Value(i + 4, i + 5, Number([0x31]))), i + 5, 4))
  {
    hide ReadHere;
    KeyRead(t, i);
    OneRead(t, m, i + 4);
    assert ReadKey(t, m, i) == ReadString(t, i);
    assert ReadColon(t, m, i + 3) == Some(i + 4);
    EntryStep(t, m, i);
  }

  lemma MapText(t: seq<Byte>, m: Flags)
    requires t != [] && t[0] == 0x7B
    ensures var r := ReadMembers(t, m, 1, false, false); ReadText(t, m).Some? <==> r.Some? && Skip(t, r.value.to) == |t|
  {
    hide ReadMembers;
    ValueStep(t, m, 0);
    HereStep(t, m, 0);
  }

  lemma BraceIsNoKey(t: seq<Byte>, m: Flags, i: nat)
    requires i < |t| && t[i] == 0x7D
    ensures ReadEntry(t, m, i) == None
  {
    hide ReadValue;
    EntryStep(t, m, i);
    assert IdentEnd(t, i) == i;
  }

  /** A comma behind the last member, members without one between them. */
  lemma CommasTold(m: Flags)
    ensures ReadText(TRAILING, m).Some? <==> m.trailingComma
    ensures ReadText(BARE, m).Some? <==> m.noCommas
  {
    hide ReadMembers, ReadEntry, ReadHere, ReadText, ReadMember;
    Trailing(m);
    Bare(m);
  }

  lemma Trailing(m: Flags)
    ensures ReadText(TRAILING, m).Some? <==> m.trailingComma
  {
    hide ReadMembers, ReadEntry, ReadHere, ReadText, ReadMember;
    var t := TRAILING;
    MemberRead(t, m, 1);
    MapText(t, m);
    MembersStep(t, m, 1, false, false);
    MemberStep(t, m, 1, false);
    MembersStep(t, m, 6, true, false);
    MembersStep(t, m, 7, false, false);
    MemberStep(t, m, 7, false);
    BraceIsNoKey(t, m, 7);
  }

  lemma Bare(m: Flags)
    ensures ReadText(BARE, m).Some? <==> m.noCommas
  {
    hide ReadMembers, ReadEntry, ReadHere, ReadText, ReadMember;
    var t := BARE;
    MemberRead(t, m, 1);
    MemberRead(t, m, 7);
    MapText(t, m);
    MembersStep(t, m, 1, false, false);
    MemberStep(t, m, 1, false);
    assert Skip(t, 6) == 7;
    MembersStep(t, m, 6, true, false);
    MemberStep(t, m, 7, false);
    MembersStep(t, m, 12, true, false);
  }

  /** A key without quotes, an equals sign for the colon. */
  lemma KeysTold(m: Flags)
    ensures ReadText(UNQUOTED, m).Some? <==> m.unquotedKeys
    ensures ReadText(ASSIGNED, m).Some? <==> m.equals
  {
    hide ReadMembers, ReadEntry, ReadHere, ReadText, ReadMember;
    Unquoted(m);
    Assigned(m);
  }

  lemma Unquoted(m: Flags)
    ensures ReadText(UNQUOTED, m).Some? <==> m.unquotedKeys
  {
    hide ReadMembers, ReadEntry, ReadHere, ReadText, ReadMember, ReadValue;
    var t := UNQUOTED;
    OneRead(t, m, 3);
    EntryStep(t, m, 1);
    assert IdentEnd(t, 2) == 2 && IdentEnd(t, 1) == 2;
    assert ReadColon(t, m, 2) == Some(3);
    MapText(t, m);
    MembersStep(t, m, 1, false, false);
    MemberStep(t, m, 1, false);
    MembersStep(t, m, 4, true, false);
  }

  lemma Assigned(m: Flags)
    ensures ReadText(ASSIGNED, m).Some? <==> m.equals
  {
    hide ReadMembers, ReadEntry, ReadHere, ReadText, ReadMember, ReadValue;
    var t := ASSIGNED;
    KeyRead(t, 1);
    OneRead(t, m, 5);
    EntryStep(t, m, 1);
    assert ReadKey(t, m, 1) == ReadString(t, 1);
    assert ReadColon(t, m, 4) == if m.equals then Some(5) else None;
    MapText(t, m);
    MembersStep(t, m, 1, false, false);
    MemberStep(t, m, 1, false);
    MembersStep(t, m, 6, true, false);
  }

  /** Members without braces around them. */
  lemma GlobalTold(m: Flags)
    ensures ReadText(OPEN, m).Some? <==> m.global
  {
    hide ReadMembers, ReadEntry, ReadHere, ReadMember;
    var t := OPEN;
    MemberRead(t, m, 0);
    KeyRead(t, 0);
    HereStep(t, m, 0);
    ValueStep(t, m, 0);
    MembersStep(t, m, 0, false, true);
    MemberStep(t, m, 0, true);
    MembersStep(t, m, 5, true, true);
  }

  /** The lenient mode admits all of this; the strict mode none. */
  lemma ModesTold()
    ensures forall t :: t in {TRAILING, BARE, UNQUOTED, ASSIGNED, OPEN} ==>
      ReadText(t, MODE_LENIENT).Some? && ReadText(t, MODE_STRICT) == None
  {
    hide ReadText;
    CommasTold(MODE_LENIENT);
    CommasTold(MODE_STRICT);
    KeysTold(MODE_LENIENT);
    KeysTold(MODE_STRICT);
    GlobalTold(MODE_LENIENT);
    GlobalTold(MODE_STRICT);
  }

  /** Identifier characters, in the keys of the lenient mode. */
  lemma IdentIs(b: Byte)
    ensures IsIdent(b) <==>
      b in {0x30, 0x31, 0x32, 0x33, 0x34, 0x35, 0x36, 0x37, 0x38, 0x39, 0x5F,
            0x41, 0x42, 0x43, 0x44, 0x45, 0x46, 0x47, 0x48, 0x49, 0x4A, 0x4B, 0x4C, 0x4D,
            0x4E, 0x4F, 0x50, 0x51, 0x52, 0x53, 0x54, 0x55, 0x56, 0x57, 0x58, 0x59, 0x5A,
            0x61, 0x62, 0x63, 0x64, 0x65, 0x66, 0x67, 0x68, 0x69, 0x6A, 0x6B, 0x6C, 0x6D,
            0x6E, 0x6F, 0x70, 0x71, 0x72, 0x73, 0x74, 0x75, 0x76, 0x77, 0x78, 0x79, 0x7A}
  {
  }
}
