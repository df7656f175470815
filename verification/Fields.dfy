/**
  What the collector follows, field by field: every reference stored in any object of a valid
  state is to an object that is there, and nothing else is ever followed.
 */
module Fields {
  import opened Wrappers
  import opened Collector

  lemma {:induction false} RefsExact(s: seq<Option<Ref>>, r: Ref)
    ensures r in OfRefs(s) <==> exists i :: 0 <= i < |s| && s[i] == Some(r)
  {
    if s != [] {
      RefsExact(s[1..], r);
      Shifted(s, Some(r));
    }
  }

  lemma {:induction false} ValsExact(s: seq<Val>, r: Ref)
    ensures r in OfVals(s) <==> exists i :: 0 <= i < |s| && s[i] == Pointer(r)
  {
    if s != [] {
      ValsExact(s[1..], r);
      Shifted(s, Pointer(r));
    }
  }

  predicate Joins(p: Pair, r: Ref) {
    p.key == Some(r) || p.value == Pointer(r)
  }

  lemma {:induction false} PairsExact(s: seq<Pair>, r: Ref)
    ensures r in OfPairs(s) <==> exists i :: 0 <= i < |s| && (s[i].key == Some(r) || s[i].value == Pointer(r))
  {
    if s != [] {
      var rest := s[1..];
      PairsExact(rest, r);
      if i :| 0 <= i < |rest| && Joins(rest[i], r) {
        assert s[i + 1] == rest[i];
      }
      if i :| 0 < i < |s| && Joins(s[i], r) {
        assert rest[i - 1] == s[i];
      }
    }
  }

  lemma Shifted<T>(s: seq<T>, x: T)
    requires s != []
    ensures (exists i :: 0 <= i < |s| && s[i] == x) <==> s[0] == x || exists i :: 0 <= i < |s| - 1 && s[1..][i] == x
  {
    if i :| 0 < i < |s| && s[i] == x {
      assert s[1..][i - 1] == x;
    }
  }

  /** The references an object stores, by kind. */
  lemma FollowedExactly(o: Obj, r: Ref)
    ensures o.Str? ==> r !in Edges(o)
    ensures o.Array? ==> (r in Edges(o) <==> exists i :: 0 <= i < |o.values| && o.values[i] == Pointer(r))
    ensures o.Map? ==>
      (r in Edges(o) <==> exists i :: 0 <= i < |o.entries| && (o.entries[i].key == Some(r) || o.entries[i].value == Pointer(r)))
    ensures o.Module? ==>
      (r in Edges(o) <==>
        o.name == Some(r) || exists i :: 0 <= i < |o.globals| && (o.globals[i].key == Some(r) || o.globals[i].value == Pointer(r)))
    ensures o.Instance? ==>
      (r in Edges(o) <==>
        o.klass == r || exists i :: 0 <= i < |o.fields| && (o.fields[i].key == Some(r) || o.fields[i].value == Pointer(r)))
    ensures o.Class? ==>
      (r in Edges(o) <==>
        o.name == Some(r) || o.super == Some(r) ||
        exists i :: 0 <= i < |o.statics| && (o.statics[i].key == Some(r) || o.statics[i].value == Pointer(r)))
    ensures o.Method? ==> (r in Edges(o) <==> o.receiver == Pointer(r) || o.bound == Some(r))
    ensures o.Closure? ==> (r in Edges(o) <==> o.code == Some(r) || exists i :: 0 <= i < |o.upvalues| && o.upvalues[i] == Some(r))
    ensures o.Function? ==>
      (r in Edges(o) <==>
        o.name == Some(r) || o.klassName == Some(r) || exists i :: 0 <= i < |o.constants| && o.constants[i] == Pointer(r))
    ensures o.Upvalue? ==> (r in Edges(o) <==> o.closed == Pointer(r))
    ensures o.Coroutine? ==>
      (r in Edges(o) <==>
        || (exists i :: 0 <= i < |o.stack| && o.stack[i] == Pointer(r))
        || (exists i :: 0 <= i < |o.frames| && o.frames[i] == Some(r))
        || (exists i :: 0 <= i < |o.open| && o.open[i] == Some(r))
        || o.caller == Some(r))
    ensures o.CFunction? ==> (r in Edges(o) <==> o.name == Some(r) || o.klassName == Some(r))
    ensures o.Exception? ==> (r in Edges(o) <==> o.name == Some(r) || o.message == Some(r))
  {
    hide OfRefs, OfVals, OfPairs;
    match o
    case Array(values) => ValsExact(values, r);
    case Map(entries) => PairsExact(entries, r);
    case Module(_, globals) => PairsExact(globals, r);
    case Instance(_, fields) => PairsExact(fields, r);
    case Class(_, _, statics) => PairsExact(statics, r);
    case Closure(_, upvalues) => RefsExact(upvalues, r);
    case Function(_, _, constants) => ValsExact(constants, r);
    case Coroutine(stack, frames, open, _) => ValsExact(stack, r); RefsExact(frames, r); RefsExact(open, r);
    case _ =>
  }

  /**
    In every valid state, and so after every collection: whatever is stored in a field of an
    object that is there, is there.
   */
  lemma FieldsAlive(vm: Vm, pending: set<Ref>, x: Ref, r: Ref)
    requires vm.Valid(pending) && x in vm.heap && r !in vm.heap
    ensures var o := vm.heap[x];
      && (o.Array? ==> forall i :: 0 <= i < |o.values| ==> o.values[i] != Pointer(r))
      && (o.Map? ==> (forall i :: 0 <= i < |o.entries| ==> o.entries[i].key != Some(r) && o.entries[i].value != Pointer(r)))
      && (o.Module? ==> o.name != Some(r))
      && (o.Module? ==> (forall i :: 0 <= i < |o.globals| ==> o.globals[i].key != Some(r) && o.globals[i].value != Pointer(r)))
      && (o.Instance? ==> o.klass != r)
      && (o.Instance? ==> (forall i :: 0 <= i < |o.fields| ==> o.fields[i].key != Some(r) && o.fields[i].value != Pointer(r)))
      && (o.Class? ==> o.name != Some(r) && o.super != Some(r))
      && (o.Class? ==> (forall i :: 0 <= i < |o.statics| ==> o.statics[i].key != Some(r) && o.statics[i].value != Pointer(r)))
      && (o.Method? ==> o.receiver != Pointer(r) && o.bound != Some(r))
      && (o.Closure? ==> o.code != Some(r) && forall i :: 0 <= i < |o.upvalues| ==> o.upvalues[i] != Some(r))
      && (o.Function? ==> o.name != Some(r) && o.klassName != Some(r))
      && (o.Function? ==> (forall i :: 0 <= i < |o.constants| ==> o.constants[i] != Pointer(r)))
      && (o.Upvalue? ==> o.closed != Pointer(r))
      && (o.Coroutine? ==> o.caller != Some(r) && forall i :: 0 <= i < |o.stack| ==> o.stack[i] != Pointer(r))
      && (o.Coroutine? ==> (forall i :: 0 <= i < |o.frames| ==> o.frames[i] != Some(r)))
      && (o.Coroutine? ==> (forall i :: 0 <= i < |o.open| ==> o.open[i] != Some(r)))
      && (o.CFunction? ==> o.name != Some(r) && o.klassName != Some(r))
      && (o.Exception? ==> o.name != Some(r) && o.message != Some(r))
    ensures r !in vm.roots && r !in vm.exempt
  {
    FollowedExactly(vm.heap[x], r);
    NotFollowed(vm.heap, vm.roots + vm.exempt, x, r);
    hide Edges, Interned, ClassesOlder, Linked, Lists, Unrepeated;
  }

  lemma NotFollowed(heap: Heap, roots: seq<Ref>, x: Ref, r: Ref)
    requires NoDangling(heap, roots) && x in heap && r !in heap
    ensures r !in Edges(heap[x]) && r !in roots
  {
  }
}
