/**
  Objects and their collection, src/jml_gc.c and src/jml_type.c: marking with a gray stack,
  a weak table of interned strings, and a sweep of the object list. Memory is explicit, so
  that what is freed is gone.
 */
module Collector {
  import opened Wrappers
  import HashMap

  /** An address. */
  type Ref = nat

  datatype Val = Plain(bits: int) | Pointer(ref: Ref)

  datatype Pair = Pair(key: Option<Ref>, value: Val)

  datatype Obj =
    | Str(chars: seq<int>, hash: nat)
    | Array(values: seq<Val>)
    | Map(entries: seq<Pair>)
    | Module(name: Option<Ref>, globals: seq<Pair>)
    | Instance(klass: Ref, fields: seq<Pair>)
    | Class(name: Option<Ref>, super: Option<Ref>, statics: seq<Pair>)
    | Method(receiver: Val, bound: Option<Ref>)
    | Closure(code: Option<Ref>, upvalues: seq<Option<Ref>>)
    | Function(name: Option<Ref>, klassName: Option<Ref>, constants: seq<Val>)
    | Upvalue(closed: Val)
    | Coroutine(stack: seq<Val>, frames: seq<Option<Ref>>, open: seq<Option<Ref>>, caller: Option<Ref>)
    | CFunction(name: Option<Ref>, klassName: Option<Ref>)
    | Exception(name: Option<Ref>, message: Option<Ref>)

  function OfRef(r: Option<Ref>): seq<Ref> {
    if r == None then [] else [r.value]
  }

  function OfVal(v: Val): seq<Ref> {
    if v.Pointer? then [v.ref] else []
  }

  function OfRefs(s: seq<Option<Ref>>): seq<Ref> {
    if s == [] then [] else OfRef(s[0]) + OfRefs(s[1..])
  }

  function OfVals(s: seq<Val>): seq<Ref> {
    if s == [] then [] else OfVal(s[0]) + OfVals(s[1..])
  }

  function OfPairs(s: seq<Pair>): seq<Ref> {
    if s == [] then [] else OfRef(s[0].key) + OfVal(s[0].value) + OfPairs(s[1..])
  }

  /** The edges `jml_gc_blacken_obj` follows, in its order. */
  function Edges(o: Obj): seq<Ref> {
    match o
    case Str(_, _) => []
    case Array(values) => OfVals(values)
    case Map(entries) => OfPairs(entries)
    case Module(name, globals) => OfRef(name) + OfPairs(globals)
    case Instance(klass, fields) => [klass] + OfPairs(fields)
    case Class(name, super, statics) => OfRef(name) + OfRef(super) + OfPairs(statics)
    case Method(receiver, bound) => OfVal(receiver) + OfRef(bound)
    case Closure(code, upvalues) => OfRef(code) + OfRefs(upvalues)
    case Function(name, klassName, constants) => OfRef(name) + OfRef(klassName) + OfVals(constants)
    case Upvalue(closed) => OfVal(closed)
    case Coroutine(stack, frames, open, caller) => OfVals(stack) + OfRefs(frames) + OfRefs(open) + OfRef(caller)
    case CFunction(name, klassName) => OfRef(name) + OfRef(klassName)
    case Exception(name, message) => OfRef(name) + OfRef(message)
  }

  type Heap = map<Ref, Obj>

  /** A walk along edges from a root. */
  ghost predicate Path(heap: Heap, roots: seq<Ref>, p: seq<Ref>) {
    p != [] && p[0] in roots &&
    (forall i :: 0 <= i < |p| ==> p[i] in heap) &&
    forall i :: 0 < i < |p| ==> p[i] in Edges(heap[p[i - 1]])
  }

  ghost predicate Reachable(heap: Heap, roots: seq<Ref>, r: Ref) {
    exists p :: Path(heap, roots, p) && p[|p| - 1] == r
  }

  /** No edge and no root leads out of the heap. */
  ghost predicate NoDangling(heap: Heap, roots: seq<Ref>) {
    (forall r :: r in roots ==> r in heap) &&
    forall r, e :: r in heap && e in Edges(heap[r]) ==> e in heap
  }

  /** Every edge of an object that is marked and not gray leads to a marked one. */
  ghost predicate Tricolor(heap: Heap, roots: seq<Ref>, marked: set<Ref>, gray: seq<Ref>) {
    (forall r :: r in marked ==> r in heap && Reachable(heap, roots, r)) &&
    (forall r :: r in gray ==> r in marked) &&
    forall r, e :: r in marked && r !in gray && e in Edges(heap[r]) ==> e in marked
  }

  lemma RootReachable(heap: Heap, roots: seq<Ref>, r: Ref)
    requires r in roots && r in heap
    ensures Reachable(heap, roots, r)
  {
    assert Path(heap, roots, [r]);
  }

  lemma EdgeReachable(heap: Heap, roots: seq<Ref>, r: Ref, e: Ref)
    requires r in heap && Reachable(heap, roots, r) && e in Edges(heap[r]) && e in heap
    ensures Reachable(heap, roots, e)
  {
    hide Edges;
    var p :| Path(heap, roots, p) && p[|p| - 1] == r;
    var q := p + [e];
    assert forall i :: 0 <= i < |q| ==> q[i] in heap;
    forall i | 0 < i < |q| ensures q[i] in Edges(heap[q[i - 1]]) {
      if i < |p| {
        assert q[i] == p[i] && q[i - 1] == p[i - 1];
      }
    }
    assert Path(heap, roots, q);
  }

  /** With nothing gray left, what is marked is what is reachable. */
  lemma MarkedIsReachable(heap: Heap, roots: seq<Ref>, marked: set<Ref>)
    requires Tricolor(heap, roots, marked, []) && forall r :: r in roots ==> r in marked
    ensures forall r :: r in marked <==> Reachable(heap, roots, r)
  {
    forall r | Reachable(heap, roots, r) ensures r in marked {
      var p :| Path(heap, roots, p) && p[|p| - 1] == r;
      PathMarked(heap, roots, marked, p);
    }
  }

  lemma {:induction false} PathMarked(heap: Heap, roots: seq<Ref>, marked: set<Ref>, p: seq<Ref>)
    requires Tricolor(heap, roots, marked, []) && (forall r :: r in roots ==> r in marked) && Path(heap, roots, p)
    ensures p[|p| - 1] in marked
    decreases |p|
  {
    if |p| > 1 {
      var q := p[..|p| - 1];
      PathMarked(heap, roots, marked, q);
      assert p[|p| - 1] in Edges(heap[q[|q| - 1]]);
    }
  }

  /** The list of objects starts at `objects` and runs through `order`. */
  ghost predicate Linked(objects: Option<Ref>, next: map<Ref, Option<Ref>>, order: seq<Ref>, from: nat)
    requires from <= |order|
  {
    objects == From(order, from) &&
    forall i :: from <= i < |order| ==> order[i] in next && next[order[i]] == From(order, i + 1)
  }

  function From(order: seq<Ref>, i: nat): Option<Ref> {
    if i < |order| then Some(order[i]) else None
  }

  ghost predicate Unrepeated(order: seq<Ref>) {
    forall i, j :: 0 <= i < j < |order| ==> order[i] != order[j]
  }

  /** What is left of the list when only `kept` stay. */
  function Filter(order: seq<Ref>, kept: set<Ref>): seq<Ref> {
    if order == [] then []
    else
      var init, r := order[..|order| - 1], order[|order| - 1];
      Filter(init, kept) + (if r in kept then [r] else [])
  }

  /** The object found under the name of destructors. */
  function Destructor(statics: seq<Pair>, name: Option<Ref>): Option<Ref> {
    if statics == [] || name == None then None
    else if statics[0].key == name && statics[0].value.Pointer? then Some(statics[0].value.ref)
    else Destructor(statics[1..], name)
  }

  function DestructorOf(o: Obj, name: Option<Ref>): seq<Ref> {
    if o.Class? then OfRef(Destructor(o.statics, name)) else []
  }

  /** The objects `jml_gc_free_object` looks at when it frees one: the class of an instance, and its destructor. */
  function Seen(heap: Heap, r: Ref, name: Option<Ref>): seq<Ref> {
    if r in heap && heap[r].Instance? then
      [heap[r].klass] + if heap[r].klass in heap then DestructorOf(heap[heap[r].klass], name) else []
    else []
  }

  ghost predicate Behind(order: seq<Ref>, i: nat, e: Ref) {
    exists j :: i < j < |order| && order[j] == e
  }

  ghost predicate SeenBehind(heap: Heap, order: seq<Ref>, i: nat, name: Option<Ref>)
    requires i < |order|
  {
    forall e :: e in Seen(heap, order[i], name) ==> Behind(order, i, e)
  }

  /** An instance comes before its class and its destructor: it is newer. */
  ghost predicate ClassesOlder(heap: Heap, order: seq<Ref>, name: Option<Ref>) {
    forall i :: 0 <= i < |order| ==> SeenBehind(heap, order, i, name)
  }

  lemma {:induction false} DestructorEdge(statics: seq<Pair>, name: Option<Ref>)
    ensures Destructor(statics, name).Some? ==> Destructor(statics, name).value in OfPairs(statics)
  {
    if statics != [] {
      DestructorEdge(statics[1..], name);
    }
  }

  /** With less in the heap, no more is looked at. */
  lemma SeenLess(less: Heap, heap: Heap, r: Ref, name: Option<Ref>)
    requires forall x :: x in less ==> x in heap && less[x] == heap[x]
    ensures forall e :: e in Seen(less, r, name) ==> e in Seen(heap, r, name)
  {
  }

  /** The table holds exactly the strings of the heap, but for those not yet entered, and none twice. */
  ghost predicate Interned(table: set<HashMap.Key>, heap: Heap, pending: set<Ref>) {
    (forall k :: k in table ==> k.ref in heap && heap[k.ref] == Str(k.chars, k.hash) && k.ref !in pending) &&
    (forall r :: r in heap && heap[r].Str? && r !in pending ==> HashMap.Key(r, heap[r].chars, heap[r].hash) in table) &&
    (forall k, l :: k in table && l in table && k.chars == l.chars ==> k == l) &&
    (forall k :: k in table ==> k.hash == Hash(k.chars))
  }

  /** The hash of a text, FNV-1a on 32 bits. */
  function Hash(chars: seq<int>): nat {
    HashFrom(2166136261, chars)
  }

  function HashFrom(hash: nat, chars: seq<int>): nat
    decreases |chars|
  {
    if chars == [] then hash else HashFrom(Mix(hash, chars[0]) * 16777619 % 0x1_0000_0000, chars[1..])
  }

  /** `hash ^ c`, of a 32-bit number and a character extended to 32 bits. */
  function Mix(hash: nat, c: int): nat {
    Xor(hash, c % 0x1_0000_0000)
  }

  function Xor(a: nat, b: nat): nat {
    if a == 0 then b else if b == 0 then a
    else (a + b) % 2 + 2 * Xor(a / 2, b / 2)
  }

  /** A digit of it is one iff that of one argument alone is. */
  lemma {:induction false} XorDigit(a: nat, b: nat, k: nat)
    ensures Digit(Xor(a, b), k) == if Digit(a, k) == Digit(b, k) then 0 else 1
  {
    hide Xor;
    XorHalf(a, b);
    if k > 0 {
      XorDigit(a / 2, b / 2, k - 1);
    }
  }

  lemma XorHalf(a: nat, b: nat)
    ensures Xor(a, b) % 2 == (a + b) % 2 && Xor(a, b) / 2 == Xor(a / 2, b / 2)
  {
    hide Xor;
    XorIs(a, b);
    if a == 0 || b == 0 {
      XorIs(a / 2, b / 2);
    } else {
      var d, n, x := (a + b) % 2, Xor(a / 2, b / 2), Xor(a, b);
      LowDigit(d, n, x);
    }
  }

  lemma XorIs(a: nat, b: nat)
    ensures (a == 0 ==> Xor(a, b) == b) && (b == 0 ==> Xor(a, b) == a)
    ensures a > 0 && b > 0 ==> Xor(a, b) == (a + b) % 2 + 2 * Xor(a / 2, b / 2)
  {
  }

  lemma LowDigit(d: nat, n: nat, x: nat)
    requires d < 2 && x == d + 2 * n
    ensures x % 2 == d && x / 2 == n
  {
  }

  /** Binary digit `k`, from the lowest. */
  function Digit(n: nat, k: nat): nat {
    if k == 0 then n % 2 else Digit(n / 2, k - 1)
  }

  /** The test vectors of the hash for the empty text and for `a`. */
  lemma HashVectors(text: seq<int>)
    requires text == ['a' as int]
    ensures Hash([]) == 0x811C_9DC5 && Hash(text) == 0xE40C_292C
  {
    hide Xor;
    assert text[1..] == [] && text[0] == 0x61;
    XorStep(0x2047277, 0x1, 0x102393B);
    XorStep(0x408E4EE, 0x3, 0x2047276);
    XorStep(0x811C9DC, 0x6, 0x408E4ED);
    XorStep(0x102393B8, 0xC, 0x811C9DA);
    XorStep(0x20472771, 0x18, 0x102393B4);
    XorStep(0x408E4EE2, 0x30, 0x20472769);
    XorStep(0x811C9DC5, 0x61, 0x408E4ED2);
    assert Mix(0x811C_9DC5, text[0]) == 0x811C_9DA4;
    assert Hash(text) == HashFrom(0xE40C_292C, text[1..]);
  }

  lemma XorStep(a: nat, b: nat, half: nat)
    requires a > 1 && b > 0 && half == if b == 1 then a / 2 else Xor(a / 2, b / 2)
    ensures Xor(a, b) == (a + b) % 2 + 2 * half
  {
    hide Xor;
    XorIs(a, b);
    XorIs(a / 2, b / 2);
  }

  class Vm {
    var heap: Heap
    var marked: set<Ref>
    var next: map<Ref, Option<Ref>>
    var objects: Option<Ref>
    var gray: seq<Ref>
    var strings: HashMap.Map
    var roots: seq<Ref>
    var exempt: seq<Ref>
    var freeString: Option<Ref>
    ghost var order: seq<Ref>

    /** Between collections nothing is marked, and only `pending` strings are not yet in the table. */
    ghost predicate Valid(pending: set<Ref>)
      reads this, strings, strings.entries
    {
      strings.Valid() && marked == {} && gray == [] &&
      Unrepeated(order) && Lists(order, heap) && Linked(objects, next, order, 0) &&
      ClassesOlder(heap, order, freeString) && NoDangling(heap, roots + exempt) &&
      Interned(strings.Contents().Keys, heap, pending)
    }

    /** A machine with nothing in it. */
    constructor ()
      ensures Valid({}) && heap == map[] && roots == [] && exempt == [] && fresh(strings) && fresh(strings.entries)
    {
      heap := map[];
      marked := {};
      next := map[];
      objects := None;
      gray := [];
      strings := new HashMap.Map();
      roots := [];
      exempt := [];
      freeString := None;
      order := [];
    }

    /** `jml_gc_mark_obj`, of an object that is not null. */
    method Mark(r: Ref)
      requires r in heap && Reachable(heap, roots + exempt, r)
      modifies `marked, `gray
      ensures marked == old(marked) + {r}
      ensures gray == if r in old(marked) then old(gray) else old(gray) + [r]
    {
      if r in marked {
        return;
      }
      marked := marked + {r};
      gray := gray + [r];
    }

    /** The marking of a run of references. */
    method MarkAll(refs: seq<Ref>)
      requires forall r :: r in refs ==> r in heap && Reachable(heap, roots + exempt, r)
      modifies `marked, `gray
      ensures marked == old(marked) + (set r | r in refs)
      ensures forall r :: r in gray <==> r in old(gray) || (r in refs && r !in old(marked))
      ensures marked == old(marked) ==> gray == old(gray)
    {
      hide Reachable;
      var i := 0;
      while i < |refs|
        invariant 0 <= i <= |refs|
        invariant forall r :: r in marked <==> r in old(marked) || r in refs[..i]
        invariant forall r :: r in gray <==> r in old(gray) || (r in refs[..i] && r !in old(marked))
        invariant marked == old(marked) ==> gray == old(gray)
      {
        assert refs[..i + 1] == refs[..i] + [refs[i]];
        Mark(refs[i]);
        i := i + 1;
      }
      assert refs[..i] == refs;
    }

    /** One gray object is blackened, `jml_gc_blacken_obj`. */
    method Blacken()
      requires NoDangling(heap, roots + exempt) && Tricolor(heap, roots + exempt, marked, gray) && gray != []
      modifies `marked, `gray
      ensures Tricolor(heap, roots + exempt, marked, gray) && old(marked) <= marked
      ensures marked == old(marked) ==> |gray| < |old(gray)|
    {
      hide Reachable, Edges;
      var r := gray[|gray| - 1];
      gray := gray[..|gray| - 1];
      forall e | e in Edges(heap[r]) ensures e in heap && Reachable(heap, roots + exempt, e) {
        EdgeReachable(heap, roots + exempt, r, e);
      }
      MarkAll(Edges(heap[r]));
    }

    /** `jml_gc_mark_roots` and `jml_gc_trace_refs`: afterwards just what is reachable is marked. */
    method Trace()
      requires NoDangling(heap, roots + exempt) && marked == {} && gray == []
      modifies `marked, `gray
      ensures gray == [] && forall r :: r in marked <==> Reachable(heap, roots + exempt, r)
      ensures forall r :: r in marked ==> r in heap
    {
      hide Reachable, Edges;
      forall r | r in roots + exempt ensures Reachable(heap, roots + exempt, r) {
        RootReachable(heap, roots + exempt, r);
      }
      MarkAll(roots);
      MarkAll(exempt);
      while |gray| > 0
        invariant Tricolor(heap, roots + exempt, marked, gray)
        invariant forall r :: r in roots + exempt ==> r in marked
        decreases heap.Keys - marked, |gray|
      {
        Blacken();
      }
      MarkedIsReachable(heap, roots + exempt, marked);
    }

    /** `jml_gc_free_object`; the destructor of an instance is looked up in its class, and both must still be there. */
    method FreeObject(r: Ref)
      requires r in heap && forall e :: e in Seen(heap, r, freeString) ==> e in heap
      modifies `heap, `next
      ensures heap == old(heap) - {r} && next == old(next) - {r}
    {
      heap := heap - {r};
      next := next - {r};
    }

    /** The branch of `jml_gc_sweep` for an object that is not marked. */
    method Drop(previous: Option<Ref>, r: Ref, ghost kept: seq<Ref>)
      requires r in heap && r in next && previous == Last(kept)
      requires forall e :: e in Seen(heap, r, freeString) ==> e in heap
      modifies `heap, `next, `objects
      ensures heap == old(heap) - {r} && next == Unlinked(old(next), kept, r)
      ensures objects == if kept == [] then old(next)[r] else old(objects)
    {
      if previous != None {
        next := next[previous.value := next[r]];
      } else {
        objects := next[r];
      }
      FreeObject(r);
    }

    /** `jml_gc_sweep`: what is not marked is unlinked and freed; the rest keeps its order and loses its marks. */
    method Sweep()
      requires Unrepeated(order) && Lists(order, heap) && Linked(objects, next, order, 0)
      requires ClassesOlder(heap, order, freeString) && forall r :: r in marked ==> r in heap
      modifies `heap, `next, `objects, `marked, `order
      ensures marked == {} && order == Filter(old(order), old(marked))
      ensures Unrepeated(order) && Lists(order, heap) && Linked(objects, next, order, 0)
      ensures heap == Kept(old(heap), old(marked))
    {
      hide Joined, Filter, ClassesOlder, Unlinked, Edges, Linked, Remaining, Sweeping, Unrepeated;
      ghost var all, was, black := order, heap, marked;
      var previous: Option<Ref> := None;
      var current := objects;
      ghost var i := 0;
      ghost var kept: seq<Ref> := [];
      SweepStart(all, was, black, next, objects, freeString);
      while current != None
        invariant 0 <= i <= |all| && Sweeping(all, was, black, i, kept, heap, next, objects, current, marked, freeString)
        invariant previous == Last(kept)
        decreases |all| - i
      {
        var r := current.value;
        SweepStep(all, was, black, i, kept, heap, next, objects, current, marked, freeString);
        if r in marked {
          marked := marked - {r};
          previous := Some(r);
          current := next[r];
          kept := kept + [r];
        } else {
          current := next[r];
          Drop(previous, r, kept);
        }
        i := i + 1;
      }
      SweepEnd(all, was, black, i, kept, heap, next, objects, marked, freeString);
      order := kept;
    }

    /** `jml_gc_collect`: what stays is what is reachable from the roots, in the order it was in. */
    method Collect(ghost pending: set<Ref>)
      requires Valid(pending) && forall r :: r in pending ==> r in roots + exempt
      modifies this, strings.entries
      ensures Valid(pending) && strings == old(strings) && strings.entries == old(strings.entries)
      ensures roots == old(roots) && exempt == old(exempt) && freeString == old(freeString)
      ensures heap == Survivors(old(heap), roots + exempt)
      ensures order == Filter(old(order), heap.Keys)
      ensures strings.Contents().Keys <= old(strings.Contents().Keys) && strings.count == old(strings.count)
    {
      hide Reachable, ClassesOlder, Interned, NoDangling, Linked, Lists, Unrepeated, Filter, Edges, Kept, Survivors;
      Trace();
      ghost var table := strings.Contents().Keys;
      Survive(heap, roots + exempt, marked);
      StillOlder(heap, order, marked, roots + exempt, freeString);
      StillInterned(heap, table, marked, pending, roots + exempt);
      CleanTable();
      Sweep();
    }

    /** The table is weak: strings that are not marked leave it before they are freed. */
    method CleanTable()
      requires strings.Valid()
      modifies strings.entries
      ensures strings.Valid() && strings.count == old(strings.count)
      ensures strings.Contents().Keys == (set k | k in old(strings.Contents().Keys) && k.ref in marked)
    {
      strings.RemoveWhite(marked);
    }

    /** A new object at any free address, at the head of the list; a new string is not in the table yet. */
    method Link(o: Obj, ghost pending: set<Ref>) returns (r: Ref)
      requires Valid(pending) && forall e :: e in Edges(o) ==> e in heap
      modifies `heap, `next, `objects, `order
      ensures Valid(if o.Str? then pending + {r} else pending) && r !in old(heap) && heap == old(heap)[r := o]
    {
      hide Edges, Linked, Lists, Unrepeated, ClassesOlder, Interned, NoDangling;
      ghost var top := Bound(heap.Keys);
      assert top !in heap;
      r :| r !in heap;
      Prepended(heap, next, objects, order, roots + exempt, strings.Contents().Keys, pending, r, o, freeString);
      heap := heap[r := o];
      next := next[r := objects];
      objects := Some(r);
      order := [r] + order;
    }

    /**
      `jml_obj_allocate`, which may collect before it takes memory: what the new object is to
      point at must be reachable.
     */
    method Allocate(o: Obj, ghost pending: set<Ref>) returns (r: Ref, collected: bool)
      requires Valid(pending) && (forall p :: p in pending ==> p in roots + exempt)
      requires forall e :: e in Edges(o) ==> e in heap && Reachable(heap, roots + exempt, e)
      modifies this, strings.entries
      ensures Valid(if o.Str? then pending + {r} else pending)
      ensures strings == old(strings) && strings.entries == old(strings.entries) && strings.count == old(strings.count)
      ensures strings.Contents().Keys <= old(strings.Contents().Keys)
      ensures roots == old(roots) && exempt == old(exempt) && freeString == old(freeString)
      ensures var left := Left(old(heap), roots + exempt, collected); r !in left && heap == left[r := o]
    {
      hide Reachable, Edges, Linked, Lists, Unrepeated, ClassesOlder, Interned, NoDangling;
      collected := *;
      if collected {
        Collect(pending);
      }
      r := Link(o, pending);
    }

    /** `jml_obj_string_hash`. */
    method StringHash(chars: seq<int>) returns (hash: nat)
      ensures hash == Hash(chars)
    {
      hash := 2166136261;
      var i := 0;
      assert chars[0..] == chars;
      while i < |chars|
        invariant 0 <= i <= |chars| && HashFrom(hash, chars[i..]) == Hash(chars)
      {
        assert chars[i..][1..] == chars[i + 1..];
        hash := Mix(hash, chars[i]);
        hash := hash * 16777619 % 0x1_0000_0000;
        i := i + 1;
      }
    }

    /** `jml_hashmap_set` asks for memory, and so may collect, when its table is to grow. */
    method BeforeSet(ghost pending: set<Ref>) returns (collected: bool)
      requires Valid(pending) && forall p :: p in pending ==> p in roots + exempt
      modifies this, strings.entries
      ensures Valid(pending) && strings == old(strings) && strings.entries == old(strings.entries)
      ensures roots == old(roots) && exempt == old(exempt) && freeString == old(freeString)
      ensures strings.Contents().Keys <= old(strings.Contents().Keys)
      ensures heap == Left(old(heap), roots + exempt, collected)
    {
      var grows := 4 * (strings.count + 1) > 3 * strings.entries.Length;
      collected := *;
      collected := grows && collected;
      if collected {
        Collect(pending);
      }
    }

    /** A new string is kept from collection while it is entered in the table, which may collect when it grows. */
    method Enter(r: Ref, chars: seq<int>, hash: nat)
      requires Valid({r}) && r in heap && heap[r] == Str(chars, hash) && hash == Hash(chars)
      requires forall k :: k in strings.Contents() ==> k.chars != chars
      modifies this, strings, strings.entries
      ensures Valid({}) && strings == old(strings) && (strings.entries == old(strings.entries) || fresh(strings.entries))
      ensures roots == old(roots) && exempt == old(exempt) && freeString == old(freeString)
      ensures heap == old(heap) || heap == Survivors(old(heap), roots + (exempt + [r]))
      ensures r in heap && heap[r] == Str(chars, hash)
    {
      hide Reachable, Edges, Linked, Lists, Unrepeated, ClassesOlder, Interned, NoDangling, Survivors, Hash;
      ghost var rooted := exempt + [r];
      StillRooted(heap, roots, exempt, r);
      RootReachable(heap, roots + rooted, r);
      SurvivorsKeep(heap, roots + rooted);
      exempt := exempt + [r];
      var _ := BeforeSet({r});
      Record(r, chars, hash);
      StillRooted(heap, roots, old(exempt), r);
      exempt := exempt[..|exempt| - 1];
      assert exempt == old(exempt);
    }

    /** The entry itself. */
    method Record(r: Ref, chars: seq<int>, hash: nat)
      requires Valid({r}) && r in heap && heap[r] == Str(chars, hash) && hash == Hash(chars)
      requires forall k :: k in strings.Contents() ==> k.chars != chars
      modifies strings, strings.entries
      ensures Valid({}) && (strings.entries == old(strings.entries) || fresh(strings.entries))
    {
      hide Reachable, Edges, Linked, Lists, Unrepeated, ClassesOlder, Interned, NoDangling, Hash;
      ghost var table := strings.Contents().Keys;
      Entered(table, heap, r, chars, hash);
      var _ := strings.Set(HashMap.Key(r, chars, hash), HashMap.NoneVal);
      assert strings.Contents().Keys == table + {HashMap.Key(r, chars, hash)};
    }

    /** `jml_obj_string_allocate`. */
    method StringAllocate(chars: seq<int>, hash: nat) returns (r: Ref)
      requires Valid({}) && hash == Hash(chars)
      requires forall k :: k in strings.Contents() ==> k.chars != chars
      modifies this, strings, strings.entries
      ensures Valid({}) && strings == old(strings) && (strings.entries == old(strings.entries) || fresh(strings.entries))
      ensures roots == old(roots) && exempt == old(exempt) && freeString == old(freeString)
      ensures r in heap && heap[r] == Str(chars, hash)
      ensures forall x :: x in heap && x != r ==> x in old(heap) && heap[x] == old(heap)[x]
      ensures forall x :: x in old(heap) && Reachable(old(heap), roots + exempt, x) ==> x in heap && heap[x] == old(heap)[x]
    {
      assert Edges(Str(chars, hash)) == [] && {} + {0} == {0};
      hide Reachable, Edges, Linked, Lists, Unrepeated, ClassesOlder, Interned, NoDangling, Survivors, Hash;
      var collected;
      r, collected := Allocate(Str(chars, hash), {});
      assert {} + {r} == {r};
      ghost var before := heap;
      SurvivorsKeep(old(heap), roots + exempt);
      SurvivorsKeep(before, roots + (exempt + [r]));
      forall x | x in old(heap) && Reachable(old(heap), roots + exempt, x)
        ensures x in before && before[x] == old(heap)[x] && Reachable(before, roots + (exempt + [r]), x)
      {
        ReachableStill(old(heap), roots + exempt, before, roots + (exempt + [r]), x);
      }
      Enter(r, chars, hash);
    }

    /** `jml_obj_string_take`: the string object of a text, found or made. */
    method StringTake(chars: seq<int>) returns (r: Ref)
      requires Valid({})
      modifies this, strings, strings.entries
      ensures Valid({}) && strings == old(strings) && (strings.entries == old(strings.entries) || fresh(strings.entries))
      ensures roots == old(roots) && exempt == old(exempt) && freeString == old(freeString)
      ensures r in heap && heap[r] == Str(chars, Hash(chars))
      ensures forall x :: x in old(heap) && Reachable(old(heap), roots + exempt, x) ==> x in heap && heap[x] == old(heap)[x]
    {
      hide Reachable, Edges, Linked, Lists, Unrepeated, ClassesOlder, NoDangling, Hash;
      var hash := StringHash(chars);
      var interned := strings.Find(chars, hash);
      if interned != None {
        return interned.value.ref;
      }
      r := StringAllocate(chars, hash);
    }

    /** `jml_obj_string_copy`: the same, with memory for the text asked for in between. */
    method StringCopy(chars: seq<int>) returns (r: Ref)
      requires Valid({})
      modifies this, strings, strings.entries
      ensures Valid({}) && strings == old(strings) && (strings.entries == old(strings.entries) || fresh(strings.entries))
      ensures roots == old(roots) && exempt == old(exempt) && freeString == old(freeString)
      ensures r in heap && heap[r] == Str(chars, Hash(chars))
      ensures forall x :: x in old(heap) && Reachable(old(heap), roots + exempt, x) ==> x in heap && heap[x] == old(heap)[x]
    {
      hide Reachable, Edges, Linked, Lists, Unrepeated, ClassesOlder, NoDangling, Hash, Survivors;
      var hash := StringHash(chars);
      var interned := strings.Find(chars, hash);
      if interned != None {
        return interned.value.ref;
      }
      var collects: bool := *;
      if collects {
        SurvivorsKeep(heap, roots + exempt);
        Collect({});
        forall x | x in old(heap) && Reachable(old(heap), roots + exempt, x) ensures Reachable(heap, roots + exempt, x) {
          ReachableStill(old(heap), roots + exempt, heap, roots + exempt, x);
        }
      }
      r := StringAllocate(chars, hash);
    }

    /** Two string objects with the same text are the same object. */
    lemma SameText(a: Ref, b: Ref)
      requires Valid({}) && a in heap && b in heap && heap[a].Str? && heap[b].Str?
      ensures a == b <==> heap[a].chars == heap[b].chars
    {
      hide Hash;
    }

    /** The name of destructors is known before any class is. */
    method NameDestructors(r: Ref)
      requires Valid({}) && freeString == None && r in heap && heap[r].Str?
      requires forall c :: c in heap ==> !heap[c].Class?
      modifies `freeString
      ensures Valid({}) && freeString == Some(r)
    {
      hide Linked, Hash, Edges, Interned, NoDangling, Lists, Unrepeated;
      freeString := Some(r);
      forall i | 0 <= i < |order| ensures SeenBehind(heap, order, i, freeString) {
        assert SeenBehind(heap, order, i, None);
      }
    }

    /**
      A store into an object: it keeps its kind, a string its text and an instance its class. A
      class gets no destructor that is newer than one of its instances.
     */
    method Store(r: Ref, o: Obj)
      requires Valid({}) && r in heap && !heap[r].Str? && !o.Str?
      requires o.Instance? ==> heap[r].Instance? && heap[r].klass == o.klass
      requires Timely(heap, order, r, o, freeString)
      requires forall e :: e in Edges(o) ==> e in heap
      modifies `heap
      ensures Valid({}) && heap == old(heap)[r := o]
    {
      hide Linked, Hash, Edges, ClassesOlder, Interned, NoDangling, Lists, Unrepeated;
      Stored(heap, order, roots + exempt, strings.Contents().Keys, r, o, freeString);
      heap := heap[r := o];
    }

    /** What is rooted changes as the program runs. */
    method Root(roots: seq<Ref>)
      requires Valid({}) && forall r :: r in roots ==> r in heap
      modifies `roots
      ensures Valid({}) && this.roots == roots
    {
      hide Linked, Hash, Edges, Interned, ClassesOlder;
      this.roots := roots;
    }

    /**
      `jml_gc_free_objs`, at the end: the whole list, but for the name of destructors, which
      goes last. No instance is freed after its class or its destructor.
     */
    method FreeAll()
      requires Valid({}) && freeString.Some? && freeString.value in heap && heap[freeString.value].Str?
      modifies `heap, `next
      ensures heap == map[]
    {
      hide Hash, Edges, Interned, NoDangling, Torn, Linked, Lists, Unrepeated, ClassesOlder;
      ghost var was := heap;
      var current := objects;
      ghost var i := 0;
      TornStart(heap, next, order, current, freeString.value);
      while current != None
        invariant 0 <= i <= |order| && Torn(heap, next, was, order, i, current, freeString.value)
        decreases |order| - i
      {
        var r := current.value;
        TornStep(heap, next, was, order, i, current, freeString.value);
        var following := next[r];
        if Some(r) != freeString {
          FreeObject(r);
        }
        current := following;
        i := i + 1;
      }
      TornEnd(heap, next, was, order, i, freeString.value);
      FreeObject(freeString.value);
    }
  }

  /** The teardown stands at the place `i` of the list. */
  ghost predicate Torn(heap: Heap, next: map<Ref, Option<Ref>>, was: Heap, order: seq<Ref>, i: nat,
                       current: Option<Ref>, freeString: Ref) {
    i <= |order| && Linked(current, next, order, i) && Unrepeated(order) && Lists(order, was) && ClassesOlder(was, order, Some(freeString)) &&
    freeString in was && was[freeString].Str? && Remains(heap, was, order, i, freeString)
  }

  ghost predicate Remains(heap: Heap, was: Heap, order: seq<Ref>, i: nat, freeString: Ref)
    requires i <= |order|
  {
    (forall r :: r in heap <==> r == freeString || r in order[i..]) && forall r :: r in heap ==> r in was && heap[r] == was[r]
  }

  lemma RemainsLess(heap: Heap, was: Heap, order: seq<Ref>, i: nat, freeString: Ref)
    requires i < |order| && Remains(heap, was, order, i, freeString)
    requires order[i] !in order[i + 1..] && forall r :: r in order[i..] <==> r == order[i] || r in order[i + 1..]
    requires order[i] in was && forall e :: e in Seen(was, order[i], Some(freeString)) ==> e in order[i + 1..]
    ensures order[i] in heap && forall e :: e in Seen(heap, order[i], Some(freeString)) ==> e in heap
    ensures Remains(if order[i] == freeString then heap else heap - {order[i]}, was, order, i + 1, freeString)
  {
    SeenLess(heap, was, order[i], Some(freeString));
  }

  lemma TornStart(heap: Heap, next: map<Ref, Option<Ref>>, order: seq<Ref>, current: Option<Ref>, freeString: Ref)
    requires Linked(current, next, order, 0) && Unrepeated(order) && Lists(order, heap) && ClassesOlder(heap, order, Some(freeString))
    requires freeString in heap && heap[freeString].Str?
    ensures Torn(heap, next, heap, order, 0, current, freeString)
  {
    assert order[0..] == order;
  }

  lemma TornStep(heap: Heap, next: map<Ref, Option<Ref>>, was: Heap, order: seq<Ref>, i: nat,
                 current: Option<Ref>, freeString: Ref)
    requires Torn(heap, next, was, order, i, current, freeString) && current.Some?
    ensures i < |order| && var r := current.value;
      r in next && r in heap && (forall e :: e in Seen(heap, r, Some(freeString)) ==> e in heap) &&
      Torn(if r == freeString then heap else heap - {r}, if r == freeString then next else next - {r}, was, order, i + 1,
           next[r], freeString)
  {
    AtCurrent(order, next, i, current);
    TeardownStep(was, order, i, Some(freeString));
    LinkedWithout(next, order, i);
    RemainsLess(heap, was, order, i, freeString);
    hide Linked, ClassesOlder, Lists, Unrepeated, Remains;
  }

  lemma LinkedWithout(next: map<Ref, Option<Ref>>, order: seq<Ref>, i: nat)
    requires i < |order| && Linked(Some(order[i]), next, order, i)
    requires forall j :: i < j < |order| ==> order[j] != order[i]
    ensures order[i] in next && Linked(next[order[i]], next, order, i + 1) && Linked(next[order[i]], next - {order[i]}, order, i + 1)
  {
  }

  lemma TornEnd(heap: Heap, next: map<Ref, Option<Ref>>, was: Heap, order: seq<Ref>, i: nat, freeString: Ref)
    requires Torn(heap, next, was, order, i, None, freeString)
    ensures heap.Keys == {freeString} && heap[freeString].Str?
  {
    assert order[i..] == [];
    assert forall r :: r in heap <==> r == freeString;
  }

  lemma Stored(heap: Heap, order: seq<Ref>, roots: seq<Ref>, table: set<HashMap.Key>, r: Ref, o: Obj,
               name: Option<Ref>)
    requires r in heap && !heap[r].Str? && !o.Str? && (o.Instance? ==> heap[r].Instance? && heap[r].klass == o.klass)
    requires (forall e :: e in Edges(o) ==> e in heap) && Lists(order, heap)
    requires ClassesOlder(heap, order, name) && NoDangling(heap, roots) && Interned(table, heap, {})
    requires Timely(heap, order, r, o, name) && Unrepeated(order)
    ensures Lists(order, heap[r := o]) && ClassesOlder(heap[r := o], order, name) && NoDangling(heap[r := o], roots)
    ensures Interned(table, heap[r := o], {})
  {
    hide Hash, Edges;
    StoredClasses(heap, order, r, o, name);
    hide ClassesOlder;
  }

  /** The destructor of what is stored is older than every instance of the class stored to. */
  ghost predicate Timely(heap: Heap, order: seq<Ref>, r: Ref, o: Obj, name: Option<Ref>) {
    forall i, e :: 0 <= i < |order| && IsInstance(heap, order[i], r) && e in DestructorOf(o, name) ==> Behind(order, i, e)
  }

  predicate IsInstance(heap: Heap, x: Ref, klass: Ref) {
    x in heap && heap[x].Instance? && heap[x].klass == klass
  }

  /** A store keeps destructors older than instances exactly if it is timely. */
  lemma StoredClasses(heap: Heap, order: seq<Ref>, r: Ref, o: Obj, name: Option<Ref>)
    requires r in heap && ClassesOlder(heap, order, name) && (o.Instance? ==> heap[r].Instance? && heap[r].klass == o.klass)
    requires Unrepeated(order)
    ensures ClassesOlder(heap[r := o], order, name) <==> Timely(heap, order, r, o, name)
  {
    hide Destructor;
    var more := heap[r := o];
    if Timely(heap, order, r, o, name) {
      forall i | 0 <= i < |order| ensures SeenBehind(more, order, i, name) {
        assert SeenBehind(heap, order, i, name);
        forall e | e in Seen(more, order[i], name) ensures Behind(order, i, e) {
          if e !in Seen(heap, order[i], name) {
            assert IsInstance(heap, order[i], r) && e in DestructorOf(o, name);
          }
        }
      }
    }
    if ClassesOlder(more, order, name) {
      forall i, e | 0 <= i < |order| && IsInstance(heap, order[i], r) && e in DestructorOf(o, name)
        ensures Behind(order, i, e)
      {
        assert SeenBehind(heap, order, i, name) && r in Seen(heap, order[i], name);
        assert SeenBehind(more, order, i, name) && e in Seen(more, order[i], name);
      }
    }
  }

  lemma TeardownStep(was: Heap, order: seq<Ref>, i: nat, name: Option<Ref>)
    requires i < |order| && Unrepeated(order) && Lists(order, was) && ClassesOlder(was, order, name)
    ensures order[i] in order[i..] && order[i] !in order[i + 1..]
    ensures forall r :: r in order[i..] <==> r == order[i] || r in order[i + 1..]
    ensures order[i] in was && forall e :: e in Seen(was, order[i], name) ==> e in order[i + 1..]
    ensures forall j :: i < j < |order| ==> order[j] != order[i]
  {
    hide Seen;
    assert order[i..] == [order[i]] + order[i + 1..];
    assert order[i] in order && SeenBehind(was, order, i, name);
    forall e | e in Seen(was, order[i], name) ensures e in order[i + 1..] {
      var j :| i < j < |order| && order[j] == e;
      assert order[i + 1..][j - i - 1] == order[j];
    }
  }

  lemma SurvivorsKeep(heap: Heap, roots: seq<Ref>)
    ensures forall r :: r in Survivors(heap, roots) <==> r in heap && Reachable(heap, roots, r)
    ensures forall r :: r in Survivors(heap, roots) ==> Survivors(heap, roots)[r] == heap[r]
  {
    hide Reachable;
  }

  lemma StillRooted(heap: Heap, roots: seq<Ref>, exempt: seq<Ref>, r: Ref)
    ensures NoDangling(heap, roots + exempt) && r in heap ==> NoDangling(heap, roots + (exempt + [r]))
    ensures NoDangling(heap, roots + (exempt + [r])) ==> NoDangling(heap, roots + exempt)
    ensures r in roots + (exempt + [r])
  {
    hide Edges;
    assert (exempt + [r])[|exempt|] == r;
  }

  /** A string whose text is not in the table is entered. */
  lemma Entered(table: set<HashMap.Key>, heap: Heap, r: Ref, chars: seq<int>, hash: nat)
    requires Interned(table, heap, {r}) && r in heap && heap[r] == Str(chars, hash) && hash == Hash(chars)
    requires forall k :: k in table ==> k.chars != chars
    ensures Interned(table + {HashMap.Key(r, chars, hash)}, heap, {})
  {
    hide Hash;
  }

  /** What was reachable is reachable where all of that is still there. */
  lemma ReachableStill(heap: Heap, roots: seq<Ref>, heap': Heap, roots': seq<Ref>, x: Ref)
    requires Reachable(heap, roots, x) && forall r :: r in roots ==> r in roots'
    requires forall r :: r in heap && Reachable(heap, roots, r) ==> r in heap' && heap'[r] == heap[r]
    ensures Reachable(heap', roots', x)
  {
    hide Edges;
    var p :| Path(heap, roots, p) && p[|p| - 1] == x;
    forall i | 0 <= i < |p| ensures Reachable(heap, roots, p[i]) {
      assert Path(heap, roots, p[..i + 1]) && p[..i + 1][i] == p[i];
    }
    assert Path(heap', roots', p);
  }

  /** What is there after memory has been asked for. */
  ghost function Left(heap: Heap, roots: seq<Ref>, collected: bool): Heap {
    if collected then Survivors(heap, roots) else heap
  }

  lemma {:induction false} Bound(s: set<Ref>) returns (top: Ref)
    ensures forall x :: x in s ==> x < top
  {
    if s == {} {
      top := 0;
    } else {
      var x :| x in s;
      top := Bound(s - {x});
      assert forall y :: y in s ==> y == x || y in s - {x};
      top := if top > x then top else x + 1;
    }
  }

  /** A new object at the head of the list. */
  lemma Prepended(heap: Heap, next: map<Ref, Option<Ref>>, objects: Option<Ref>, order: seq<Ref>, roots: seq<Ref>,
                  table: set<HashMap.Key>, pending: set<Ref>, r: Ref, o: Obj, name: Option<Ref>)
    requires r !in heap && Unrepeated(order) && Lists(order, heap) && Linked(objects, next, order, 0)
    requires ClassesOlder(heap, order, name) && NoDangling(heap, roots) && Interned(table, heap, pending)
    requires forall e :: e in Edges(o) ==> e in heap
    ensures Unrepeated([r] + order) && Lists([r] + order, heap[r := o])
    ensures Linked(Some(r), next[r := objects], [r] + order, 0)
    ensures ClassesOlder(heap[r := o], [r] + order, name) && NoDangling(heap[r := o], roots)
    ensures Interned(table, heap[r := o], if o.Str? then pending + {r} else pending)
  {
    PrependedList(order, heap, r, o);
    PrependedLinks(next, objects, order, r);
    PrependedClasses(heap, order, roots, r, o, name);
    PrependedString(table, heap, pending, r, o);
    hide Linked, ClassesOlder, Lists, Edges, Interned, Unrepeated;
  }

  lemma PrependedList(order: seq<Ref>, heap: Heap, r: Ref, o: Obj)
    requires r !in heap && Unrepeated(order) && Lists(order, heap)
    ensures r !in order && Unrepeated([r] + order) && Lists([r] + order, heap[r := o])
  {
  }

  lemma PrependedString(table: set<HashMap.Key>, heap: Heap, pending: set<Ref>, r: Ref, o: Obj)
    requires r !in heap && Interned(table, heap, pending)
    ensures Interned(table, heap[r := o], if o.Str? then pending + {r} else pending)
  {
    hide Hash;
  }

  lemma PrependedLinks(next: map<Ref, Option<Ref>>, objects: Option<Ref>, order: seq<Ref>, r: Ref)
    requires Linked(objects, next, order, 0) && r !in order
    ensures Linked(Some(r), next[r := objects], [r] + order, 0)
  {
    var longer := [r] + order;
    forall i | 0 <= i < |longer| ensures longer[i] in next[r := objects] && next[r := objects][longer[i]] == From(longer, i + 1) {
      if i > 0 {
        assert longer[i] == order[i - 1];
      }
    }
  }

  lemma PrependedClasses(heap: Heap, order: seq<Ref>, roots: seq<Ref>, r: Ref, o: Obj, name: Option<Ref>)
    requires ClassesOlder(heap, order, name) && r !in heap && Lists(order, heap) && NoDangling(heap, roots)
    requires forall e :: e in Edges(o) ==> e in heap
    ensures ClassesOlder(heap[r := o], [r] + order, name)
  {
    hide Seen, Edges, Lists, NoDangling, SeenBehind;
    var more, longer := heap[r := o], [r] + order;
    forall i | 0 <= i < |longer|
      ensures SeenBehind(more, longer, i, name)
    {
      if i == 0 {
        NewBehind(heap, order, roots, r, o, name);
      } else {
        assert longer[i] == order[i - 1];
        OldBehind(heap, order, i - 1, r, o, name);
      }
    }
  }

  lemma NewBehind(heap: Heap, order: seq<Ref>, roots: seq<Ref>, r: Ref, o: Obj, name: Option<Ref>)
    requires r !in heap && Lists(order, heap) && NoDangling(heap, roots) && forall e :: e in Edges(o) ==> e in heap
    ensures SeenBehind(heap[r := o], [r] + order, 0, name)
  {
    hide Seen, Edges;
    var longer := [r] + order;
    forall e | e in Seen(heap[r := o], r, name) ensures Behind(longer, 0, e) {
      NewSeen(heap, roots, r, o, name, e);
      var j :| 0 <= j < |order| && order[j] == e;
      assert longer[j + 1] == e;
    }
  }

  lemma OldBehind(heap: Heap, order: seq<Ref>, i: nat, r: Ref, o: Obj, name: Option<Ref>)
    requires i < |order| && SeenBehind(heap, order, i, name) && Lists(order, heap) && r !in heap
    ensures SeenBehind(heap[r := o], [r] + order, i + 1, name)
  {
    hide Seen, Edges;
    var longer := [r] + order;
    OldSeen(heap, order, i, r, o, name);
    forall e | e in Seen(heap, order[i], name) ensures Behind(longer, i + 1, e) {
      var j :| i < j < |order| && order[j] == e;
      assert longer[j + 1] == order[j];
    }
  }

  /** The class of a new instance is there, and so is its destructor. */
  lemma NewSeen(heap: Heap, roots: seq<Ref>, r: Ref, o: Obj, name: Option<Ref>, e: Ref)
    requires r !in heap && NoDangling(heap, roots) && (forall x :: x in Edges(o) ==> x in heap) && e in Seen(heap[r := o], r, name)
    ensures e in heap
  {
    assert o.klass in Edges(o);
    if e != o.klass {
      var k := heap[o.klass];
      DestructorEdge(k.statics, name);
      assert e in Edges(k);
    }
  }

  lemma OldSeen(heap: Heap, order: seq<Ref>, i: nat, r: Ref, o: Obj, name: Option<Ref>)
    requires i < |order| && SeenBehind(heap, order, i, name) && Lists(order, heap) && r !in heap
    ensures Seen(heap[r := o], order[i], name) == Seen(heap, order[i], name)
  {
    var x := order[i];
    assert x in order;
    if heap[x].Instance? {
      assert heap[x].klass in Seen(heap, x, name);
      var j :| i < j < |order| && order[j] == heap[x].klass;
      assert order[j] in order;
    }
  }

  /** What a collection is to leave. */
  ghost function Survivors(heap: Heap, roots: seq<Ref>): Heap {
    map r | r in heap && Reachable(heap, roots, r) :: heap[r]
  }

  ghost function Kept(heap: Heap, black: set<Ref>): Heap {
    map r | r in heap && r in black :: heap[r]
  }

  lemma Survive(heap: Heap, roots: seq<Ref>, black: set<Ref>)
    requires forall r :: r in black <==> Reachable(heap, roots, r)
    requires (forall r :: r in black ==> r in heap) && NoDangling(heap, roots)
    ensures Kept(heap, black) == Survivors(heap, roots) && Kept(heap, black).Keys == black && NoDangling(Kept(heap, black), roots)
  {
    hide Reachable, Edges;
    var left := Kept(heap, black);
    forall r | r in roots ensures r in left {
      RootReachable(heap, roots, r);
    }
    forall r, e | r in left && e in Edges(left[r]) ensures e in left {
      EdgeReachable(heap, roots, r, e);
    }
  }

  lemma {:induction false} FilterKeepsOrder(order: seq<Ref>, kept: set<Ref>, i: nat, j: nat) returns (a: nat, b: nat)
    requires i < j < |order| && order[i] in kept && order[j] in kept
    ensures a < b < |Filter(order, kept)| && Filter(order, kept)[a] == order[i] && Filter(order, kept)[b] == order[j]
    decreases |order|
  {
    var init := order[..|order| - 1];
    if j < |order| - 1 {
      a, b := FilterKeepsOrder(init, kept, i, j);
    } else {
      a := FilterHas(init, kept, i);
      b := |Filter(order, kept)| - 1;
    }
  }

  lemma {:induction false} FilterHas(order: seq<Ref>, kept: set<Ref>, i: nat) returns (a: nat)
    requires i < |order| && order[i] in kept
    ensures a < |Filter(order, kept)| && Filter(order, kept)[a] == order[i]
    decreases |order|
  {
    if i == |order| - 1 {
      a := |Filter(order, kept)| - 1;
    } else {
      a := FilterHas(order[..|order| - 1], kept, i);
    }
  }

  /** The class of a surviving instance survives with its destructor, and both stay behind it. */
  lemma StillOlder(heap: Heap, order: seq<Ref>, black: set<Ref>, roots: seq<Ref>, name: Option<Ref>)
    requires ClassesOlder(heap, order, name) && Unrepeated(order) && Lists(order, heap) && NoDangling(heap, roots)
    requires forall r :: r in black <==> Reachable(heap, roots, r)
    ensures ClassesOlder(Kept(heap, black), Filter(order, black), name)
  {
    hide Reachable, Edges, Filter, NoDangling, Lists, Seen;
    var left, kept := Kept(heap, black), Filter(order, black);
    FilterIn(order, black);
    forall n | 0 <= n < |kept|
      ensures SeenBehind(left, kept, n, name)
    {
      var r := kept[n];
      InHeap(order, heap, r);
      var i :| 0 <= i < |order| && order[i] == r;
      assert SeenBehind(heap, order, i, name);
      SeenLess(left, heap, r, name);
      forall e | e in Seen(left, r, name) ensures Behind(kept, n, e) {
        var j :| i < j < |order| && order[j] == e;
        SeenReachable(heap, roots, r, e, name);
        var a, b := FilterKeepsOrder(order, black, i, j);
        assert a == n;
      }
    }
  }

  lemma InHeap(order: seq<Ref>, heap: Heap, r: Ref)
    requires Lists(order, heap) && r in order
    ensures r in heap
  {
  }

  lemma SeenReachable(heap: Heap, roots: seq<Ref>, r: Ref, e: Ref, name: Option<Ref>)
    requires r in heap && NoDangling(heap, roots) && Reachable(heap, roots, r) && e in Seen(heap, r, name)
    ensures Reachable(heap, roots, e)
  {
    hide Reachable;
    var k := heap[r].klass;
    assert k in Edges(heap[r]);
    EdgeReachable(heap, roots, r, k);
    if e != k {
      DestructorEdge(heap[k].statics, name);
      assert e in Edges(heap[k]);
      EdgeReachable(heap, roots, k, e);
    }
  }

  lemma StillInterned(heap: Heap, table: set<HashMap.Key>, black: set<Ref>, pending: set<Ref>, roots: seq<Ref>)
    requires Interned(table, heap, pending)
    ensures Interned((set k | k in table && k.ref in black), Kept(heap, black), pending)
  {
  }

  /** A sweep stands at `current`, the place `i` of the list as it was. */
  ghost predicate Sweeping(all: seq<Ref>, was: Heap, black: set<Ref>, i: nat, kept: seq<Ref>, heap: Heap,
                           next: map<Ref, Option<Ref>>, objects: Option<Ref>, current: Option<Ref>, marked: set<Ref>,
                           name: Option<Ref>) {
    i <= |all| && Linked(current, next, all, i) && Unrepeated(all) && Lists(all, was) &&
    kept == Filter(all[..i], black) && Joined(objects, next, kept, current) &&
    Remaining(heap, was, black, all, i) && ClassesOlder(was, all, name) && marked == Ahead(black, all, i)
  }

  /** The list is that of the whole heap. */
  ghost predicate Lists(all: seq<Ref>, heap: Heap) {
    forall r :: r in all <==> r in heap
  }

  /** The marks a sweep has not reached. */
  ghost function Ahead(black: set<Ref>, all: seq<Ref>, i: nat): set<Ref>
    requires i <= |all|
  {
    set r | r in black && r in all[i..]
  }

  lemma SweepStart(all: seq<Ref>, was: Heap, black: set<Ref>, next: map<Ref, Option<Ref>>, objects: Option<Ref>,
                   name: Option<Ref>)
    requires Linked(objects, next, all, 0) && Unrepeated(all) && Lists(all, was)
    requires ClassesOlder(was, all, name) && forall r :: r in black ==> r in was
    ensures Sweeping(all, was, black, 0, [], was, next, objects, objects, black, name)
  {
    hide Linked, Filter, Joined, Unrepeated, ClassesOlder, Lists, Remaining;
    assert all[..0] == [];
    NoneKept(all, black, objects, next);
    NothingSwept(all, was, black);
  }

  lemma NothingSwept(all: seq<Ref>, was: Heap, black: set<Ref>)
    requires Lists(all, was) && forall r :: r in black ==> r in was
    ensures Remaining(was, was, black, all, 0) && black == Ahead(black, all, 0)
  {
    assert all[0..] == all;
  }

  lemma SweepStep(all: seq<Ref>, was: Heap, black: set<Ref>, i: nat, kept: seq<Ref>, heap: Heap,
                  next: map<Ref, Option<Ref>>, objects: Option<Ref>, current: Option<Ref>, marked: set<Ref>, name: Option<Ref>)
    requires Sweeping(all, was, black, i, kept, heap, next, objects, current, marked, name) && current.Some?
    ensures var r := current.value;
      i < |all| && r in heap && r in next && (r !in marked ==> forall e :: e in Seen(heap, r, name) ==> e in heap) &&
      if r in marked then
        Sweeping(all, was, black, i + 1, kept + [r], heap, next, objects, next[r], marked - {r}, name)
      else
        Sweeping(all, was, black, i + 1, kept, heap - {r}, Unlinked(next, kept, r),
                 if kept == [] then next[r] else objects, next[r], marked, name)
  {
    var r := current.value;
    AtCurrent(all, next, i, current);
    hide Linked;
    if r in marked {
      SweepKeep(all, was, black, i, kept, heap, next, objects, marked, name);
    } else {
      SweepFree(all, was, black, i, kept, heap, next, objects, marked, name);
    }
    hide Filter, Joined, ClassesOlder, Unlinked, Remaining, Sweeping;
  }

  lemma AtCurrent(all: seq<Ref>, next: map<Ref, Option<Ref>>, i: nat, current: Option<Ref>)
    requires i <= |all| && Linked(current, next, all, i) && current.Some?
    ensures i < |all| && current == Some(all[i]) && all[i] in next
  {
  }

  lemma SweepKeep(all: seq<Ref>, was: Heap, black: set<Ref>, i: nat, kept: seq<Ref>, heap: Heap,
                  next: map<Ref, Option<Ref>>, objects: Option<Ref>, marked: set<Ref>, name: Option<Ref>)
    requires i < |all| && all[i] in next && Sweeping(all, was, black, i, kept, heap, next, objects, Some(all[i]), marked, name)
    requires all[i] in marked
    ensures all[i] in heap
    ensures Sweeping(all, was, black, i + 1, kept + [all[i]], heap, next, objects, next[all[i]], marked - {all[i]}, name)
  {
    Turn(all, black, i, kept);
    hide Filter, Joined, Linked, ClassesOlder, Unrepeated, Lists, Ahead;
    KeepStep(all, was, black, i, kept, heap, next, objects);
  }

  lemma StillUnrepeated(order: seq<Ref>, i: nat, kept: set<Ref>)
    requires i <= |order| && Unrepeated(order)
    ensures Unrepeated(Filter(order[..i], kept))
  {
    FilterIn(order[..i], kept);
  }

  lemma SweepFree(all: seq<Ref>, was: Heap, black: set<Ref>, i: nat, kept: seq<Ref>, heap: Heap,
                  next: map<Ref, Option<Ref>>, objects: Option<Ref>, marked: set<Ref>, name: Option<Ref>)
    requires i < |all| && all[i] in next && Sweeping(all, was, black, i, kept, heap, next, objects, Some(all[i]), marked, name)
    requires all[i] !in marked
    ensures all[i] in heap && forall e :: e in Seen(heap, all[i], name) ==> e in heap
    ensures Sweeping(all, was, black, i + 1, kept, heap - {all[i]}, Unlinked(next, kept, all[i]),
                     if kept == [] then next[all[i]] else objects, next[all[i]], marked, name)
  {
    hide Filter, Joined, Linked, ClassesOlder, Unrepeated, Unlinked, Lists, Ahead, Seen, Remaining;
    Turn(all, black, i, kept);
    StillUnrepeated(all, i, black);
    UnlinkRest(all, i, kept, next);
    UnlinkKept(kept, all[i], next, objects);
    FreeStep(all, was, black, i, heap, name);
  }

  lemma SweepEnd(all: seq<Ref>, was: Heap, black: set<Ref>, i: nat, kept: seq<Ref>, heap: Heap,
                 next: map<Ref, Option<Ref>>, objects: Option<Ref>, marked: set<Ref>, name: Option<Ref>)
    requires Sweeping(all, was, black, i, kept, heap, next, objects, None, marked, name)
    ensures kept == Filter(all, black) && marked == {}
    ensures Unrepeated(kept) && Lists(kept, heap) && Linked(objects, next, kept, 0)
    ensures heap == Kept(was, black)
  {
    assert all[..i] == all && all[i..] == [];
    KeptAll(all, was, black, kept, heap, next, objects);
  }

  function Last(s: seq<Ref>): Option<Ref> {
    if s == [] then None else Some(s[|s| - 1])
  }

  /** What a sweep has not freed when it stands at `i`. */
  ghost predicate Remaining(heap: Heap, was: Heap, black: set<Ref>, all: seq<Ref>, i: nat)
    requires i <= |all|
  {
    (forall r :: r in heap <==> r in was && (r in black || r in all[i..])) && forall r :: r in heap ==> heap[r] == was[r]
  }

  /** What follows a kept object. */
  function After(kept: seq<Ref>, i: nat, rest: Option<Ref>): Option<Ref> {
    if i + 1 < |kept| then Some(kept[i + 1]) else rest
  }

  /** The kept part of the list is linked up and goes on with `rest`. */
  ghost predicate Joined(objects: Option<Ref>, next: map<Ref, Option<Ref>>, kept: seq<Ref>, rest: Option<Ref>) {
    objects == (if kept == [] then rest else Some(kept[0])) &&
    forall i :: 0 <= i < |kept| ==> kept[i] in next && next[kept[i]] == After(kept, i, rest)
  }

  lemma Turn(all: seq<Ref>, black: set<Ref>, i: nat, kept: seq<Ref>)
    requires i < |all| && Unrepeated(all) && kept == Filter(all[..i], black)
    ensures Filter(all[..i + 1], black) == if all[i] in black then kept + [all[i]] else kept
    ensures all[i] in Ahead(black, all, i) <==> all[i] in black
    ensures Ahead(black, all, i + 1) == Ahead(black, all, i) - {all[i]}
    ensures all[i] in all[i..] && all[i] !in all[i + 1..] && forall r :: r in all[i..] <==> r == all[i] || r in all[i + 1..]
    ensures all[i] !in kept && forall r :: r in kept ==> r in all[..i] && r !in all[i..] && r in black
  {
    assert all[..i + 1][..i] == all[..i];
    assert all[i..] == [all[i]] + all[i + 1..];
    FilterIn(all[..i], black);
    forall r | r in all[..i] ensures r !in all[i..] {
    }
  }

  lemma {:induction false} FilterIn(order: seq<Ref>, kept: set<Ref>)
    requires Unrepeated(order)
    ensures forall r :: r in Filter(order, kept) <==> r in order && r in kept
    ensures Unrepeated(Filter(order, kept))
  {
    if order != [] {
      var init := order[..|order| - 1];
      FilterIn(init, kept);
      assert order == init + [order[|order| - 1]];
    }
  }

  lemma KeepStep(all: seq<Ref>, was: Heap, black: set<Ref>, i: nat, kept: seq<Ref>, heap: Heap,
                 next: map<Ref, Option<Ref>>, objects: Option<Ref>)
    requires i < |all| && Linked(Some(all[i]), next, all, i) && Joined(objects, next, kept, Some(all[i]))
    requires Remaining(heap, was, black, all, i) && all[i] in black
    requires forall r :: r in all[i..] <==> r == all[i] || r in all[i + 1..]
    ensures all[i] in next && Linked(next[all[i]], next, all, i + 1)
    ensures Joined(objects, next, kept + [all[i]], next[all[i]]) && Remaining(heap, was, black, all, i + 1)
  {
  }

  /** The links once an object is taken out behind the kept ones. */
  function Unlinked(next: map<Ref, Option<Ref>>, kept: seq<Ref>, r: Ref): map<Ref, Option<Ref>>
    requires r in next
  {
    (if kept == [] then next else next[kept[|kept| - 1] := next[r]]) - {r}
  }

  lemma UnlinkRest(all: seq<Ref>, i: nat, kept: seq<Ref>, next: map<Ref, Option<Ref>>)
    requires i < |all| && Linked(Some(all[i]), next, all, i) && all[i] !in all[i + 1..]
    requires kept != [] ==> kept[|kept| - 1] !in all[i..]
    ensures all[i] in next && Linked(next[all[i]], Unlinked(next, kept, all[i]), all, i + 1)
  {
    forall j | i + 1 <= j < |all| ensures all[j] != all[i] && (kept != [] ==> all[j] != kept[|kept| - 1]) {
      assert all[j] == all[i + 1..][j - i - 1];
      assert all[j] == all[i..][j - i];
    }
  }

  lemma UnlinkKept(kept: seq<Ref>, r: Ref, next: map<Ref, Option<Ref>>, objects: Option<Ref>)
    requires r in next && r !in kept && Unrepeated(kept) && Joined(objects, next, kept, Some(r))
    ensures Joined(if kept == [] then next[r] else objects, Unlinked(next, kept, r), kept, next[r])
  {
  }

  lemma FreeStep(all: seq<Ref>, was: Heap, black: set<Ref>, i: nat, heap: Heap, name: Option<Ref>)
    requires i < |all| && Remaining(heap, was, black, all, i) && all[i] !in black && ClassesOlder(was, all, name)
    requires Lists(all, was) && all[i] !in all[i + 1..]
    requires forall r :: r in all[i..] <==> r == all[i] || r in all[i + 1..]
    ensures all[i] in heap && forall e :: e in Seen(heap, all[i], name) ==> e in heap
    ensures Remaining(heap - {all[i]}, was, black, all, i + 1)
  {
    hide Seen;
    assert SeenBehind(was, all, i, name);
    SeenLess(heap, was, all[i], name);
    forall e | e in Seen(heap, all[i], name) ensures e in heap {
      var j :| i < j < |all| && all[j] == e;
      assert all[j] == all[i..][j - i];
      assert all[j] in all;
    }
  }

  lemma NoneKept(all: seq<Ref>, black: set<Ref>, objects: Option<Ref>, next: map<Ref, Option<Ref>>)
    ensures Filter([], black) == [] && Joined(objects, next, [], objects)
  {
  }

  lemma KeptAll(all: seq<Ref>, was: Heap, black: set<Ref>, kept: seq<Ref>, heap: Heap,
                next: map<Ref, Option<Ref>>, objects: Option<Ref>)
    requires Unrepeated(all) && kept == Filter(all, black) && Joined(objects, next, kept, None)
    requires (forall r :: r in heap <==> r in was && r in black) && (forall r :: r in heap ==> heap[r] == was[r])
    requires Lists(all, was)
    ensures Unrepeated(kept) && Lists(kept, heap) && Linked(objects, next, kept, 0)
    ensures heap == Kept(was, black)
  {
    FilterIn(all, black);
  }
}
