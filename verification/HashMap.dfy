/**
  The hash map of src/jml_value.c: open addressing with linear probing, tombstones for
  deleted keys, and a table that doubles before it is more than three quarters full. It is
  tied to a mathematical map from keys to values.
 */
module HashMap {
  import opened Arithmetic
  import opened Wrappers

  /** A string object: its address stands for its identity; hash and text never change. */
  datatype Key = Key(ref: nat, chars: seq<int>, hash: nat)

  datatype Value = NoneVal | TrueVal | Other(bits: int)

  datatype Entry = Entry(key: Option<Key>, value: Value)

  const EMPTY := Entry(None, NoneVal)
  const TOMBSTONE := Entry(None, TrueVal)

  /** The bitwise "and" of two unsigned numbers. */
  function And(a: nat, b: nat): nat {
    if a == 0 || b == 0 then 0 else (a % 2) * (b % 2) + 2 * And(a / 2, b / 2)
  }

  /** A power of two from 8 on. */
  predicate IsSize(n: nat) {
    n == 8 || (n > 8 && n % 2 == 0 && IsSize(n / 2))
  }

  predicate IsPower(n: nat) {
    n == 1 || (n > 1 && n % 2 == 0 && IsPower(n / 2))
  }

  lemma {:induction false} SizeIsPower(n: nat)
    requires IsSize(n)
    ensures IsPower(n)
  {
    if n == 8 {
      assert IsPower(4) by { assert IsPower(2) by { assert IsPower(1); } }
    } else {
      SizeIsPower(n / 2);
    }
  }

  /** Masking with a power of two less one is the remainder. */
  lemma {:induction false} AndIsRemainder(a: nat, n: nat)
    requires IsPower(n)
    ensures And(a, n - 1) == a % n
    decreases n
  {
    if n == 1 {
    } else if a == 0 {
    } else {
      AndIsRemainder(a / 2, n / 2);
      assert (n - 1) / 2 == n / 2 - 1 && (n - 1) % 2 == 1;
      Halves(a, n / 2);
    }
  }

  lemma Halves(a: nat, m: nat)
    requires m > 0
    ensures a % (2 * m) == a % 2 + 2 * (a / 2 % m)
  {
    var q, r := a / 2 / m, a / 2 % m;
    assert a == a % 2 + 2 * (m * q + r);
    assert a == (2 * m) * q + (a % 2 + 2 * r);
    Divides(a, 2 * m, q, a % 2 + 2 * r);
  }

  /* Tables, as sequences of entries. */

  predicate IsLive(e: Entry) {
    e.key.Some?
  }

  predicate IsEmpty(e: Entry) {
    e.key.None? && e.value == NoneVal
  }

  /** The slot `j` places after `home`, round the end of a table of size `n`. */
  function Place(home: nat, j: nat, n: nat): (i: nat)
    requires home < n && j < n
    ensures i < n
  {
    if home + j < n then home + j else home + j - n
  }

  function Distance(home: nat, i: nat, n: nat): (j: nat)
    requires home < n && i < n
    ensures j < n && Place(home, j, n) == i
  {
    if i >= home then i - home else i + n - home
  }

  function Home(k: Key, n: nat): (h: nat)
    requires n > 0
    ensures h < n
  {
    k.hash % n
  }

  predicate Distinct(t: seq<Entry>) {
    forall i, j :: 0 <= i < j < |t| && IsLive(t[i]) && IsLive(t[j]) ==> t[i].key != t[j].key
  }

  /** Nothing empty lies between the home of a key and the first `n` places after it. */
  predicate Crowded(t: seq<Entry>, home: nat, n: nat)
    requires home < |t| && n <= |t|
  {
    forall j :: 0 <= j < n ==> !IsEmpty(t[Place(home, j, |t|)])
  }

  /** Every key is found by probing from its home. */
  predicate Reachable(t: seq<Entry>) {
    forall i :: 0 <= i < |t| && IsLive(t[i]) ==>
      Crowded(t, Home(t[i].key.value, |t|), Distance(Home(t[i].key.value, |t|), i, |t|))
  }

  predicate Table(t: seq<Entry>) {
    Distinct(t) && Reachable(t)
  }

  /** How many entries are not empty: live ones and tombstones. */
  function Used(t: seq<Entry>): (n: nat)
    ensures n <= |t|
  {
    if t == [] then 0 else (if IsEmpty(t[0]) then 0 else 1) + Used(t[1..])
  }

  function Live(t: seq<Entry>): (n: nat)
    ensures n <= Used(t)
  {
    if t == [] then 0 else (if IsLive(t[0]) then 1 else 0) + Live(t[1..])
  }

  /** The map a table stands for. */
  ghost function View(t: seq<Entry>): map<Key, Value>
    requires Distinct(t)
  {
    map i | 0 <= i < |t| && IsLive(t[i]) :: t[i].key.value := t[i].value
  }

  ghost predicate Has(t: seq<Entry>, k: Key) {
    exists i :: 0 <= i < |t| && t[i].key == Some(k)
  }

  lemma {:induction false} UsedUpdate(t: seq<Entry>, i: nat, e: Entry)
    requires i < |t|
    ensures Used(t[i := e]) == Used(t) - (if IsEmpty(t[i]) then 0 else 1) + (if IsEmpty(e) then 0 else 1)
    ensures Live(t[i := e]) == Live(t) - (if IsLive(t[i]) then 1 else 0) + (if IsLive(e) then 1 else 0)
  {
    if i > 0 {
      UsedUpdate(t[1..], i - 1, e);
      assert t[i := e][1..] == t[1..][i - 1 := e];
    } else {
      assert t[i := e][1..] == t[1..];
    }
  }

  /** A table that is not full has an empty entry. */
  lemma {:induction false} EmptyEntry(t: seq<Entry>) returns (i: nat)
    requires Used(t) < |t|
    ensures i < |t| && IsEmpty(t[i])
  {
    if IsEmpty(t[0]) {
      i := 0;
    } else {
      i := EmptyEntry(t[1..]);
      i := i + 1;
    }
  }

  lemma ViewKeys(t: seq<Entry>)
    requires Distinct(t)
    ensures forall k :: k in View(t) <==> Has(t, k)
    ensures forall i :: 0 <= i < |t| && IsLive(t[i]) ==> t[i].key.value in View(t) && View(t)[t[i].key.value] == t[i].value
  {
  }

  lemma ViewIs(t: seq<Entry>, m: map<Key, Value>)
    requires Distinct(t) && forall x :: x in m <==> Has(t, x)
    requires forall i :: 0 <= i < |t| && IsLive(t[i]) && t[i].key.value in m ==> m[t[i].key.value] == t[i].value
    ensures View(t) == m
  {
    ViewKeys(t);
    forall x | x in m ensures x in View(t) && View(t)[x] == m[x] {
      var i :| 0 <= i < |t| && t[i].key == Some(x);
    }
  }

  /** Filling an entry keeps what was crowded crowded. */
  lemma StillCrowded(t: seq<Entry>, i: nat, e: Entry, home: nat, n: nat)
    requires i < |t| && home < |t| && n <= |t| && Crowded(t, home, n) && !IsEmpty(e)
    ensures Crowded(t[i := e], home, n)
  {
  }

  lemma ReachableUpdate(t: seq<Entry>, i: nat, e: Entry)
    requires Reachable(t) && i < |t| && !IsEmpty(e)
    requires IsLive(e) ==> Crowded(t, Home(e.key.value, |t|), Distance(Home(e.key.value, |t|), i, |t|))
    ensures Reachable(t[i := e])
  {
    var u := t[i := e];
    hide Crowded, Home, Distance;
    forall a | 0 <= a < |u| && IsLive(u[a])
      ensures Crowded(u, Home(u[a].key.value, |u|), Distance(Home(u[a].key.value, |u|), a, |u|))
    {
      StillCrowded(t, i, e, Home(u[a].key.value, |u|), Distance(Home(u[a].key.value, |u|), a, |u|));
    }
  }

  lemma HasUpdate(t: seq<Entry>, i: nat, e: Entry)
    requires Distinct(t) && i < |t| && (IsLive(e) && Has(t, e.key.value) ==> t[i].key == e.key)
    ensures Distinct(t[i := e])
    ensures forall x :: Has(t[i := e], x) <==> (e.key == Some(x) || (Has(t, x) && t[i].key != Some(x)))
  {
    var u := t[i := e];
    forall x ensures Has(u, x) <==> (e.key == Some(x) || (Has(t, x) && t[i].key != Some(x))) {
      if Has(u, x) {
        var a :| 0 <= a < |u| && u[a].key == Some(x);
      }
      if e.key == Some(x) {
        assert u[i].key == Some(x);
      }
      if Has(t, x) && t[i].key != Some(x) {
        var a :| 0 <= a < |t| && t[a].key == Some(x);
        assert u[a].key == Some(x);
      }
    }
  }

  /** Writing a key where it belongs. */
  lemma TableSet(t: seq<Entry>, i: nat, k: Key, v: Value)
    requires Table(t) && i < |t| && Crowded(t, Home(k, |t|), Distance(Home(k, |t|), i, |t|))
    requires if Has(t, k) then t[i].key == Some(k) else t[i].key == None
    ensures Table(t[i := Entry(Some(k), v)])
    ensures View(t[i := Entry(Some(k), v)]) == View(t)[k := v]
  {
    var e := Entry(Some(k), v);
    var u := t[i := e];
    ReachableUpdate(t, i, e);
    HasUpdate(t, i, e);
    ViewKeys(t);
    hide Reachable, View, Crowded, Has;
    ViewIs(u, View(t)[k := v]);
  }

  /** Leaving a tombstone in place of a key. */
  lemma TableDelete(t: seq<Entry>, i: nat)
    requires Table(t) && i < |t| && IsLive(t[i])
    ensures Table(t[i := TOMBSTONE])
    ensures View(t[i := TOMBSTONE]) == View(t) - {t[i].key.value}
  {
    var k, u := t[i].key.value, t[i := TOMBSTONE];
    ReachableUpdate(t, i, TOMBSTONE);
    HasUpdate(t, i, TOMBSTONE);
    ViewKeys(t);
    hide Reachable, View, Crowded, Has;
    ViewIs(u, View(t) - {k});
  }

  lemma {:induction false} UsedAppend(t: seq<Entry>, e: Entry)
    ensures Used(t + [e]) == Used(t) + (if IsEmpty(e) then 0 else 1)
    ensures Live(t + [e]) == Live(t) + (if IsLive(e) then 1 else 0)
  {
    if t == [] {
      assert t + [e] == [e];
    } else {
      UsedAppend(t[1..], e);
      assert (t + [e])[1..] == t[1..] + [e];
    }
  }

  lemma {:induction false} LiveUpTo(t: seq<Entry>, i: nat)
    requires i <= |t|
    ensures Live(t[..i]) <= Live(t)
    decreases |t| - i
  {
    if i == |t| {
      assert t[..i] == t;
    } else {
      LiveUpTo(t, i + 1);
      assert t[..i + 1] == t[..i] + [t[i]];
      UsedAppend(t[..i], t[i]);
    }
  }

  /** The keys of a table are as many as its live entries. */
  lemma {:induction false} LiveIsSize(t: seq<Entry>)
    requires Distinct(t)
    ensures Live(t) == |View(t)|
  {
    if t != [] {
      var init, e := t[..|t| - 1], t[|t| - 1];
      LiveIsSize(init);
      assert t == init + [e];
      UsedAppend(init, e);
      ViewAppend(init, e);
      if IsLive(e) {
        ViewKeys(init);
        assert View(t).Keys == View(init).Keys + {e.key.value};
      }
    }
  }

  lemma ViewAppend(t: seq<Entry>, e: Entry)
    requires Distinct(t + [e])
    ensures Distinct(t)
    ensures View(t + [e]) == if IsLive(e) then View(t)[e.key.value := e.value] else View(t)
    ensures IsLive(e) ==> !Has(t, e.key.value)
  {
    var u := t + [e];
    assert forall i :: 0 <= i < |t| ==> u[i] == t[i];
    assert u[|t|] == e;
    ViewKeys(t);
    forall x ensures Has(u, x) <==> Has(t, x) || e.key == Some(x) {
      if Has(t, x) {
        var i :| 0 <= i < |t| && t[i].key == Some(x);
        assert u[i].key == Some(x);
      }
      if e.key == Some(x) {
        assert u[|t|].key == Some(x);
      }
    }
    hide View, Has;
    ViewIs(u, if IsLive(e) then View(t)[e.key.value := e.value] else View(t));
  }

  /** A probe that has met only other keys and meets an empty entry has shown the key absent. */
  lemma Absent(t: seq<Entry>, k: Key, n: nat)
    requires Table(t) && n < |t|
    requires IsEmpty(t[Place(Home(k, |t|), n, |t|)])
    requires forall j :: 0 <= j < n ==> t[Place(Home(k, |t|), j, |t|)].key != Some(k)
    ensures !Has(t, k)
  {
    var home := Home(k, |t|);
    forall i | 0 <= i < |t| ensures t[i].key != Some(k) {
      var d := Distance(home, i, |t|);
      assert Place(home, d, |t|) == i;
    }
  }

  /** A probe cannot go all round a table that has an empty entry. */
  lemma NotAllRound(t: seq<Entry>, home: nat, n: nat)
    requires Used(t) < |t| && home < |t| && n < |t| && Crowded(t, home, n) && !IsEmpty(t[Place(home, n, |t|)])
    ensures n + 1 < |t| && Crowded(t, home, n + 1)
  {
    var e := EmptyEntry(t);
    NotThere(t, home, n, e);
  }

  lemma NotThere(t: seq<Entry>, home: nat, n: nat, e: nat)
    requires home < |t| && n < |t| && Crowded(t, home, n) && !IsEmpty(t[Place(home, n, |t|)])
    requires e < |t| && IsEmpty(t[e])
    ensures n + 1 < |t| && Crowded(t, home, n + 1)
  {
    assert Distance(home, e, |t|) > n;
  }

  /** `jml_hashmap_find_entry`: the entry of a key, or the one where it belongs. */
  method FindEntry(entries: array<Entry>, key: Key) returns (index: nat)
    requires IsSize(entries.Length) && Table(entries[..]) && Used(entries[..]) < entries.Length
    ensures index < entries.Length
    ensures var home := Home(key, entries.Length); Crowded(entries[..], home, Distance(home, index, entries.Length))
    ensures if Has(entries[..], key) then entries[index].key == Some(key) else entries[index].key == None
  {
    ghost var t := entries[..];
    ghost var home := Home(key, |t|);
    SizeIsPower(entries.Length);
    AndIsRemainder(key.hash, entries.Length);
    index := And(key.hash, entries.Length - 1);
    hide Table, Used, Has, Home, IsSize, Crowded;
    NoneCrowded(t, home);
    var tombstone: Option<nat> := None;
    ghost var n: nat := 0;
    ghost var m: nat := 0;
    while true
      invariant n < |t| && index == Place(home, n, |t|) && Crowded(t, home, n)
      invariant forall j :: 0 <= j < n ==> t[Place(home, j, |t|)].key != Some(key)
      invariant tombstone.Some? ==> m < n && tombstone.value == Place(home, m, |t|) && t[tombstone.value].key == None
      decreases |t| - n
    {
      var entry := entries[index];
      LessCrowded(t, home, n);
      if entry.key == None {
        if entry.value == NoneVal {
          Absent(t, key, n);
          if tombstone != None {
            index := tombstone.value;
          }
          return;
        } else if tombstone == None {
          tombstone := Some(index);
          m := n;
        }
      } else if entry.key == Some(key) {
        IsThere(t, index);
        return;
      }
      NotAllRound(t, home, n);
      index := NextIndex(index, entries.Length);
      n := n + 1;
    }
  }

  lemma NoneCrowded(t: seq<Entry>, home: nat)
    requires home < |t|
    ensures Crowded(t, home, 0) && Place(home, 0, |t|) == home
  {
  }

  lemma LessCrowded(t: seq<Entry>, home: nat, n: nat)
    requires home < |t| && n < |t| && Crowded(t, home, n)
    ensures forall m :: 0 <= m <= n ==> Crowded(t, home, m) && Distance(home, Place(home, m, |t|), |t|) == m
  {
  }

  /** `(index + 1) & capacity`. */
  method NextIndex(index: nat, size: nat) returns (next: nat)
    requires IsSize(size) && index < size
    ensures next == if index + 1 == size then 0 else index + 1
  {
    SizeIsPower(size);
    AndIsRemainder(index + 1, size);
    if index + 1 == size {
      Divides(size, size, 1, 0);
    } else {
      Divides(index + 1, size, 0, index + 1);
    }
    next := And(index + 1, size - 1);
  }

  lemma NoneUsed(t: seq<Entry>)
    requires Table(t)
    ensures Used(t) == 0 ==> View(t) == map[]
  {
    UsedNone(t);
  }

  lemma Deleted(t: seq<Entry>, i: nat, k: Key)
    requires Table(t) && i < |t| && (if Has(t, k) then t[i].key == Some(k) else t[i].key == None)
    ensures if IsLive(t[i])
      then k in View(t) && View(t)[k] == t[i].value && Table(t[i := TOMBSTONE]) &&
           View(t[i := TOMBSTONE]) == View(t) - {k} && Used(t[i := TOMBSTONE]) == Used(t)
      else k !in View(t) && View(t) - {k} == View(t)
  {
    ViewKeys(t);
    if IsLive(t[i]) {
      TableDelete(t, i);
      UsedUpdate(t, i, TOMBSTONE);
    }
    hide View, Table;
  }

  /** The entry of a key is found and written: what is new, and whether it was empty before. */
  method WriteEntry(table: array<Entry>, key: Key, value: Value) returns (newKey: bool, wasEmpty: bool)
    requires IsSize(table.Length) && Table(table[..]) && Used(table[..]) < table.Length
    modifies table
    ensures Table(table[..]) && View(table[..]) == View(old(table[..]))[key := value]
    ensures newKey == (key !in View(old(table[..]))) && (wasEmpty ==> newKey)
    ensures Used(table[..]) == Used(old(table[..])) + (if wasEmpty then 1 else 0)
    ensures Live(table[..]) == Live(old(table[..])) + (if newKey then 1 else 0)
    ensures Used(old(table[..])) == Live(old(table[..])) ==> wasEmpty == newKey
  {
    ghost var t := table[..];
    var index := FindEntry(table, key);
    hide Table, View, Crowded, Has;
    newKey := table[index].key == None;
    wasEmpty := newKey && table[index].value == NoneVal;
    Written(t, index, key, value);
    table[index] := Entry(Some(key), value);
    assert table[..] == t[index := Entry(Some(key), value)];
  }

  lemma Written(t: seq<Entry>, i: nat, k: Key, v: Value)
    requires Table(t) && i < |t| && Crowded(t, Home(k, |t|), Distance(Home(k, |t|), i, |t|))
    requires if Has(t, k) then t[i].key == Some(k) else t[i].key == None
    ensures var u := t[i := Entry(Some(k), v)];
      Table(u) && View(u) == View(t)[k := v] && (t[i].key == None <==> k !in View(t)) &&
      Used(u) == Used(t) + (if IsEmpty(t[i]) then 1 else 0) && Live(u) == Live(t) + (if IsLive(t[i]) then 0 else 1)
    ensures Used(t) == Live(t) ==> IsLive(t[i]) || IsEmpty(t[i])
  {
    TableSet(t, i, k, v);
    UsedUpdate(t, i, Entry(Some(k), v));
    ViewKeys(t);
    hide Table, View, Crowded;
    NoTombstone(t, i);
  }

  /** Where as many entries are used as are live, there is no tombstone. */
  lemma {:induction false} NoTombstone(t: seq<Entry>, i: nat)
    requires i < |t|
    ensures Used(t) == Live(t) ==> IsLive(t[i]) || IsEmpty(t[i])
  {
    if i > 0 {
      NoTombstone(t[1..], i - 1);
    }
  }

  /** The loop of `jml_hashmap_find`. */
  method FindNamed(entries: array<Entry>, chars: seq<int>, hash: nat) returns (key: Option<Key>)
    requires IsSize(entries.Length) && Table(entries[..]) && Used(entries[..]) < entries.Length
    ensures key.Some? ==> Has(entries[..], key.value) && key.value.chars == chars && key.value.hash == hash
    ensures key == None ==> forall i :: 0 <= i < entries.Length ==> !Named(entries[i], chars, hash)
  {
    ghost var t := entries[..];
    ghost var home := Home(Key(0, chars, hash), |t|);
    SizeIsPower(entries.Length);
    AndIsRemainder(hash, entries.Length);
    var index := And(hash, entries.Length - 1);
    hide Table, Used, Has, Home, IsSize;
    ghost var n: nat := 0;
    while true
      invariant n < |t| && index == Place(home, n, |t|) && Crowded(t, home, n)
      invariant forall j :: 0 <= j < n ==> !Named(t[Place(home, j, |t|)], chars, hash)
      decreases |t| - n
    {
      var entry := entries[index];
      if entry.key == None {
        if entry.value == NoneVal {
          NotNamed(t, chars, hash, n);
          return None;
        }
      } else if |entry.key.value.chars| == |chars| && entry.key.value.hash == hash && entry.key.value.chars == chars {
        IsThere(t, index);
        return entry.key;
      }
      NotAllRound(t, home, n);
      index := NextIndex(index, entries.Length);
      n := n + 1;
    }
  }

  lemma IsThere(t: seq<Entry>, i: nat)
    requires i < |t| && IsLive(t[i])
    ensures Has(t, t[i].key.value)
  {
  }

  class Map {
    var count: nat
    var entries: array<Entry>

    ghost predicate Valid()
      reads this, entries
    {
      (entries.Length == 0 || IsSize(entries.Length)) && Table(entries[..]) &&
      count == Used(entries[..]) && 4 * count <= 3 * entries.Length
    }

    /** The map the object stands for. */
    ghost function Contents(): map<Key, Value>
      requires Valid()
      reads this, entries
    {
      View(entries[..])
    }

    /** No key has been deleted since the table was last rebuilt. */
    ghost predicate Clean()
      reads this, entries
    {
      count == Live(entries[..])
    }

    /** `jml_hashmap_init`. */
    constructor ()
      ensures Valid() && Contents() == map[] && Clean() && fresh(entries)
    {
      count := 0;
      entries := new Entry[0];
    }

    /** `jml_hashmap_adjust_capacity`: every key moves to a table of the new size; tombstones do not. */
    method AdjustCapacity(size: nat)
      requires Valid() && IsSize(size) && Live(entries[..]) < size
      modifies this
      ensures fresh(entries) && entries.Length == size && Table(entries[..])
      ensures View(entries[..]) == View(old(entries[..]))
      ensures count == Used(entries[..]) == Live(entries[..]) == Live(old(entries[..]))
    {
      hide Reachable, Distinct, View, Has, IsSize;
      ghost var t := entries[..];
      var table := new Entry[size](i => EMPTY);
      assert table[..] == seq(size, i => EMPTY);
      Blank(size);
      count := 0;
      var i := 0;
      Nothing(t);
      while i < entries.Length
        invariant 0 <= i <= entries.Length == |t| && entries == old(entries) && entries[..] == t
        invariant Table(table[..]) && Distinct(t[..i]) && View(table[..]) == View(t[..i])
        invariant count == Used(table[..]) == Live(table[..]) == Live(t[..i])
      {
        var entry := entries[i];
        OneMore(t, i);
        if entry.key != None {
          var _, _ := WriteEntry(table, entry.key.value, entry.value);
          count := count + 1;
        }
        i := i + 1;
      }
      assert t[..i] == t;
      entries := table;
    }

    /** `jml_hashmap_set`: true for a new key. */
    method Set(key: Key, value: Value) returns (newKey: bool)
      requires Valid()
      modifies this, entries
      ensures Valid() && Contents() == old(Contents())[key := value] && newKey == (key !in old(Contents()))
      ensures old(Clean()) ==> Clean()
      ensures entries == old(entries) || fresh(entries)
      ensures old(4 * (count + 1) <= 3 * entries.Length) ==> entries == old(entries)
      ensures old(4 * (count + 1) > 3 * entries.Length) ==>
        fresh(entries) && entries.Length == if old(entries.Length) < 8 then 8 else 2 * old(entries.Length)
    {
      hide Table, View, Has, Live;
      if 4 * (count + 1) > 3 * entries.Length {
        var size := if entries.Length < 8 then 8 else entries.Length * 2;
        AdjustCapacity(size);
      }
      var wasEmpty;
      newKey, wasEmpty := WriteEntry(entries, key, value);
      if newKey && wasEmpty {
        count := count + 1;
      }
    }

    /** `jml_hashmap_get`. */
    method Get(key: Key) returns (value: Option<Value>)
      requires Valid()
      ensures value == if key in Contents() then Some(Contents()[key]) else None
    {
      ViewKeys(entries[..]);
      if count == 0 {
        UsedNone(entries[..]);
        return None;
      }
      var index := FindEntry(entries, key);
      if entries[index].key == None {
        return None;
      }
      return Some(entries[index].value);
    }

    /** `jml_hashmap_pop`; `jml_hashmap_del` is the same without the value. */
    method Pop(key: Key) returns (value: Option<Value>)
      requires Valid()
      modifies entries
      ensures Valid() && Contents() == old(Contents()) - {key}
      ensures value == if key in old(Contents()) then Some(old(Contents())[key]) else None
      ensures forall j :: 0 <= j < entries.Length ==> entries[j] == old(entries[j]) || entries[j].key == None
    {
      ghost var t := entries[..];
      hide Table, View, Used, Crowded;
      NoneUsed(t);
      if count == 0 {
        return None;
      }
      var index := FindEntry(entries, key);
      Deleted(t, index, key);
      if entries[index].key == None {
        return None;
      }
      value := Some(entries[index].value);
      entries[index] := Entry(None, TrueVal);
      assert entries[..] == t[index := TOMBSTONE];
    }

    /** `jml_hashmap_add`: every entry of another map is set in this one. */
    method Add(source: Map)
      requires Valid() && source.Valid() && source != this && source.entries != entries
      modifies this, entries
      ensures Valid() && Contents() == old(Contents()) + source.Contents()
      ensures old(Clean()) ==> Clean()
      ensures fresh(entries) || entries == old(entries)
    {
      hide Reachable, Distinct, View, Has, Live, Used, IsSize;
      ghost var t := source.entries[..];
      var i := 0;
      Nothing(t);
      while i < source.entries.Length
        invariant 0 <= i <= source.entries.Length == |t| && source.entries[..] == t
        invariant Valid() && (fresh(entries) || entries == old(entries))
        invariant Distinct(t[..i]) && Contents() == old(Contents()) + View(t[..i])
        invariant old(Clean()) ==> Clean()
      {
        var entry := source.entries[i];
        OneMore(t, i);
        if entry.key != None {
          var _ := Set(entry.key.value, entry.value);
        }
        i := i + 1;
      }
      assert t[..i] == t;
    }

    /** `jml_hashmap_iterator`: the live entries. Its stop at the count never cuts them short. */
    method Iterator() returns (list: seq<Entry>)
      requires Valid()
      ensures Distinct(list) && View(list) == Contents() && |list| == |Contents()|
      ensures forall e :: e in list ==> IsLive(e)
    {
      ghost var t := entries[..];
      hide Reachable, View, Has, Used, IsSize;
      LiveIsSize(t);
      list := [];
      var i := 0;
      Nothing(t);
      while i < entries.Length
        invariant 0 <= i <= entries.Length
        invariant Distinct(list) && Distinct(t[..i]) && View(list) == View(t[..i]) && |list| == Live(t[..i])
        invariant forall e :: e in list ==> IsLive(e)
      {
        var entry := entries[i];
        OneMore(t, i);
        LiveUpTo(t, i + 1);
        if entry.key != None {
          if |list| == count {
            break;
          }
          KeepsDistinct(list, entry);
          ViewAppend(list, entry);
          list := list + [entry];
        }
        i := i + 1;
      }
      assert t[..i] == t;
    }

    /** In a map built by setting and adding alone, the count is the number of keys. */
    lemma CountIsSize()
      requires Valid() && Clean()
      ensures count == |Contents()|
    {
      LiveIsSize(entries[..]);
    }

    /** `jml_hashmap_find`: a key by its text and hash. */
    method Find(chars: seq<int>, hash: nat) returns (key: Option<Key>)
      requires Valid()
      ensures key.Some? ==> key.value in Contents() && key.value.chars == chars && key.value.hash == hash
      ensures key == None ==> forall k :: k in Contents() ==> k.chars != chars || k.hash != hash
    {
      ghost var t := entries[..];
      ViewKeys(t);
      if count == 0 {
        UsedNone(t);
        return None;
      }
      key := FindNamed(entries, chars, hash);
    }

    /** `jml_hashmap_remove_white`: only keys that are marked stay. */
    method RemoveWhite(marked: set<nat>)
      requires Valid()
      modifies entries
      ensures Valid() && Contents() == (map k | k in old(Contents()) && k.ref in marked :: old(Contents())[k])
    {
      hide Reachable, Distinct, View, Used, IsSize;
      ghost var was := Contents();
      var i := 0;
      while i < entries.Length
        invariant 0 <= i <= entries.Length && Valid()
        invariant forall k :: k in Contents() ==> k in was && Contents()[k] == was[k]
        invariant forall k :: k in was && k.ref in marked ==> k in Contents()
        invariant forall j :: 0 <= j < i && entries[j].key.Some? ==> entries[j].key.value.ref in marked
      {
        var entry := entries[i];
        ViewKeys(entries[..]);
        if entry.key != None && entry.key.value.ref !in marked {
          assert entries[..][i].key == entry.key;
          var _ := Pop(entry.key.value);
          ViewKeys(entries[..]);
          assert entries[..][i] == entries[i];
        }
        i := i + 1;
      }
      ViewKeys(entries[..]);
    }
  }

  lemma KeepsDistinct(t: seq<Entry>, e: Entry)
    requires Distinct(t) && IsLive(e) && e.key.value !in View(t)
    ensures Distinct(t + [e])
  {
    ViewKeys(t);
    assert forall i :: 0 <= i < |t| && t[i].key == e.key ==> Has(t, e.key.value);
  }

  predicate Named(e: Entry, chars: seq<int>, hash: nat) {
    e.key.Some? && e.key.value.chars == chars && e.key.value.hash == hash
  }

  lemma {:induction false} UsedNone(t: seq<Entry>)
    ensures Used(t) == 0 ==> forall i :: 0 <= i < |t| ==> IsEmpty(t[i])
  {
    if t != [] {
      UsedNone(t[1..]);
      assert forall i :: 0 < i < |t| ==> t[i] == t[1..][i - 1];
    }
  }

  /** The same, for a probe by text. */
  lemma NotNamed(t: seq<Entry>, chars: seq<int>, hash: nat, n: nat)
    requires Table(t) && n < |t|
    requires var home := Home(Key(0, chars, hash), |t|);
      IsEmpty(t[Place(home, n, |t|)]) && forall j :: 0 <= j < n ==> !Named(t[Place(home, j, |t|)], chars, hash)
    ensures forall i :: 0 <= i < |t| ==> !Named(t[i], chars, hash)
  {
    var home := Home(Key(0, chars, hash), |t|);
    forall i | 0 <= i < |t| ensures !Named(t[i], chars, hash) {
      var d := Distance(home, i, |t|);
      assert Place(home, d, |t|) == i;
      assert Named(t[i], chars, hash) ==> Home(t[i].key.value, |t|) == home;
    }
  }

  lemma Nothing(t: seq<Entry>)
    ensures Distinct(t[..0]) && View(t[..0]) == map[] && Live(t[..0]) == 0
  {
  }

  /** The part of a table that has been moved grows by an entry. */
  lemma OneMore(t: seq<Entry>, i: nat)
    requires Distinct(t) && i < |t|
    ensures Distinct(t[..i]) && Distinct(t[..i + 1]) && Live(t[..i]) <= Live(t)
    ensures Live(t[..i + 1]) == Live(t[..i]) + (if IsLive(t[i]) then 1 else 0)
    ensures View(t[..i + 1]) == if IsLive(t[i]) then View(t[..i])[t[i].key.value := t[i].value] else View(t[..i])
    ensures IsLive(t[i]) ==> t[i].key.value !in View(t[..i])
  {
    hide View, Has, Live, Used, Distinct;
    FrontDistinct(t, i);
    FrontDistinct(t, i + 1);
    assert t[..i + 1] == t[..i] + [t[i]];
    UsedAppend(t[..i], t[i]);
    ViewAppend(t[..i], t[i]);
    NewKey(t[..i], t[i]);
    LiveUpTo(t, i);
  }

  lemma NewKey(t: seq<Entry>, e: Entry)
    requires Distinct(t + [e]) && Distinct(t)
    ensures IsLive(e) ==> e.key.value !in View(t)
  {
    hide View;
    ViewKeys(t);
    assert (t + [e])[|t|] == e && forall i :: 0 <= i < |t| ==> (t + [e])[i] == t[i];
  }

  lemma FrontDistinct(t: seq<Entry>, i: nat)
    requires Distinct(t) && i <= |t|
    ensures Distinct(t[..i])
  {
  }

  lemma {:induction false} Blank(n: nat)
    ensures var t := seq(n, i => EMPTY); Table(t) && View(t) == map[] && Used(t) == Live(t) == 0
  {
    if n > 0 {
      Blank(n - 1);
      assert seq(n, i => EMPTY)[1..] == seq(n - 1, i => EMPTY);
    }
  }
}
