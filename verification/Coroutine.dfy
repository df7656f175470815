/**
  The stack and the open upvalues of src/jml_vm.c and src/jml_type.c: an array that moves
  when it grows, addresses into it, and a linked list of upvalue objects that point into the
  stack until they are closed. Every operation is tied to the machine in which each variable
  is a cell of its own.
 */
module Coroutine {
  import opened Wrappers
  import opened CellMachine

  /** Where an upvalue's value is: at an address of the stack, or in its own field. */
  datatype Location = InStack(address: int) | Own

  class Upvalue {
    var location: Location
    var closed: Value
    var next: Upvalue?

    constructor (local: int)
      ensures location == InStack(local) && next == null
    {
      location := InStack(local);
      closed := Plain(0);
      next := null;
    }
  }

  datatype CallFrame = CallFrame(slots: int, closure: nat)

  datatype ClosureObj = ClosureObj(arity: nat, upvalues: seq<Upvalue>)

  /** How an instruction ends: `Gone` when the coroutine it goes on with is not there any more. */
  datatype Ending = Fine | Failed | Gone

  class Coroutine {
    var stack: array<Value>
    var base: int
    var top: int
    var frames: seq<CallFrame>
    var frameCapacity: nat
    var open: Upvalue?
    var closures: seq<ClosureObj>

    ghost var state: State
    ghost var list: seq<Upvalue>
    ghost var at: seq<nat>
    ghost var cell: map<Upvalue, nat>
    ghost var done: set<Upvalue>

    ghost predicate Coupled(live: nat)
      reads this, stack, list, done
    {
      Shape(state, list, at, cell, live) && Holds(stack, state.slots, state.store) &&
      Linked(open, list) && Pointing(base, list, at) && done == NotOpen(list, cell) && Closed(state.store, done, cell) &&
      Aligned(frames, base, state.frames) && Matching(closures, state.funcs, cell)
    }

    ghost predicate Sized()
      reads this
    {
      8 <= stack.Length == state.room && 0 <= top - base < stack.Length && frameCapacity == state.depth
    }

    ghost predicate Valid()
      reads this, stack, list, done
    {
      Coupled(|state.slots|) && Sized() &&
      (frames != [] ==> top == base + |state.slots|)
    }

    /** A coroutine that is about to run a closure without upvalues, the first one. */
    constructor (block: int, arity: nat)
      ensures Valid() && fresh(stack) && cell == map[]
      ensures state == MAIN.(funcs := [Func(arity, [])])
    {
      stack := new Value[STACK_MIN](i => Plain(0));
      base := block;
      top := block + 1;
      frames := [CallFrame(block, 0)];
      frameCapacity := FRAMES_MIN;
      open := null;
      closures := [ClosureObj(arity, [])];
      state := MAIN.(funcs := [Func(arity, [])]);
      list := [];
      at := [];
      cell := map[];
      done := {};
      new;
      stack[0] := Closure(0);
    }

    method MoveFrames(oldBase: int, ghost model: seq<Frame>)
      requires Aligned(frames, oldBase, model)
      modifies `frames
      ensures Aligned(frames, base, model) && |frames| == |old(frames)|
    {
      var i := 0;
      while i < |frames|
        invariant 0 <= i <= |frames| == |model|
        invariant forall k :: 0 <= k < |frames| ==>
          frames[k] == CallFrame((if k < i then base else oldBase) + model[k].base, model[k].closure)
      {
        frames := frames[i := frames[i].(slots := base + (frames[i].slots - oldBase))];
        i := i + 1;
      }
    }

    method MoveOne(upvalue: Upvalue, oldBase: int, ghost k: nat)
      requires k < |list| == |at| && upvalue == list[k]
      requires Part(base, list, at, 0, k) && Part(oldBase, list, at, k, |list|)
      requires forall i, j :: 0 <= i < j < |list| ==> list[i] != list[j]
      modifies upvalue`location
      ensures Part(base, list, at, 0, k + 1) && Part(oldBase, list, at, k + 1, |list|)
    {
      upvalue.location := InStack(base + (upvalue.location.address - oldBase));
    }

    method MoveUpvalues(oldBase: int)
      requires Linked(open, list) && Pointing(oldBase, list, at)
      requires forall i, j :: 0 <= i < j < |list| ==> list[i] != list[j]
      modifies list`location
      ensures Linked(open, list) && Pointing(base, list, at)
    {
      OpenFirst(open, list);
      hide Linked, Part;
      var upvalue := open;
      ghost var k := 0;
      NoPart(base, oldBase, list, at);
      while upvalue != null
        invariant 0 <= k <= |list| == |at| && upvalue == From(list, k) && Linked(open, list)
        invariant Part(base, list, at, 0, k) && Part(oldBase, list, at, k, |list|)
        decreases |list| - k
      {
        NextOf(open, list, k);
        MoveOne(upvalue, oldBase, k);
        upvalue := upvalue.next;
        k := k + 1;
      }
      AllParts(base, list, at);
    }

    /** `realloc`: the values are copied; where the new block lies is not known. */
    method Reallocate(capacity: nat) returns (grown: array<Value>, block: int)
      requires stack.Length <= capacity
      ensures fresh(grown) && grown.Length == capacity
      ensures forall i :: 0 <= i < stack.Length ==> grown[i] == stack[i]
    {
      grown := new Value[capacity](i => Plain(0));
      forall i | 0 <= i < stack.Length {
        grown[i] := stack[i];
      }
      block := *;
    }

    /** Moves every address into the old block along. */
    method Relocate(oldBase: int)
      requires Linked(open, list) && Pointing(oldBase, list, at) && Aligned(frames, oldBase, state.frames)
      requires forall i, j :: 0 <= i < j < |list| ==> list[i] != list[j]
      modifies `frames, `top, list`location
      ensures Linked(open, list) && Pointing(base, list, at) && Aligned(frames, base, state.frames)
      ensures |frames| == |old(frames)| && top - base == old(top) - oldBase
    {
      hide Linked, Pointing, Aligned;
      if base != oldBase {
        MoveFrames(oldBase, state.frames);
        MoveUpvalues(oldBase);
        top := base + (top - oldBase);
      }
    }

    /**
      `jml_obj_coroutine_grow`: the stack may move; every address into it moves along. At the
      limit nothing is left running.
     */
    method Grow() returns (ok: bool)
      requires Valid()
      modifies this, list`location
      ensures Valid() && list == old(list) && at == old(at) && cell == old(cell) && done == old(done)
      ensures closures == old(closures) && frameCapacity == old(frameCapacity) && |frames| == |old(frames)|
      ensures ok == CanGrow(old(state)) && state == if ok then Grown(old(state)) else old(state)
      ensures ok ==> fresh(stack) && stack.Length == 2 * old(stack.Length)
      ensures !ok ==> stack == old(stack) && base == old(base)
      ensures top - base == old(top) - old(base)
    {
      hide Valid;
      var capacity := Doubled();
      if capacity >= STACK_MAX {
        return false;
      }
      MoveTo(capacity);
      ok := true;
    }

    method Doubled() returns (capacity: int)
      requires Valid()
      ensures capacity == 2 * stack.Length && (capacity >= STACK_MAX <==> !CanGrow(state))
    {
      return if stack.Length < 8 then 8 else stack.Length * 2;
    }

    /** The stack moves to a larger block. */
    method MoveTo(capacity: nat)
      requires Valid() && capacity == 2 * stack.Length && CanGrow(state)
      modifies `stack, `base, `frames, `top, `state, list`location
      ensures Valid() && |frames| == |old(frames)|
      ensures state == Grown(old(state)) && fresh(stack) && stack.Length == capacity
      ensures top - base == old(top) - old(base)
    {
      hide Shape, Matching, Aligned, Linked, Pointing, Closed, NotOpen;
      var oldBase := base;
      ShapeDistinct(state, list, at, cell, |state.slots|);
      NotOpenApart(list, cell);
      ShapeGrown(state, list, at, cell);
      state := Grown(state);
      stack, base := Reallocate(capacity);
      Relocate(oldBase);
    }

    /** `jml_vm_push`; false where it writes through a coroutine that is gone. */
    method PushValue(v: Value) returns (ok: bool)
      requires Valid() && frames != []
      modifies this, stack, list`location
      ensures ok == PushStep(old(state), v).Ran?
      ensures ok ==> Valid() && frames != [] && state == PushStep(old(state), v).state
      ensures list == old(list) && at == old(at) && cell == old(cell) && done == old(done) && closures == old(closures)
      ensures stack == old(stack) || fresh(stack)
    {
      hide Shape, Matching, Aligned, Linked, Pointing, Closed, Pushed, Holds;
      ok := true;
      if top + 1 - base >= stack.Length {
        ok := Grow();
        if !ok {
          return;
        }
      }
      Enlarged(v);
    }

    /** The rest of a push, when there is room. */
    method Enlarged(v: Value)
      requires Valid() && frames != [] && |state.slots| + 1 < state.room
      modifies `state, `top, stack
      ensures Valid() && state == Pushed(old(state), v)
    {
      hide Shape, Matching, Aligned, Linked, Pointing, Closed, Pushed, Holds;
      PushKeeps(state, list, at, cell, v);
      ClosedKeep(state.store, Pushed(state, v).store, done, cell);
      SetTop(v);
      top := top + 1;
      state := Pushed(state, v);
    }

    /** `*stack_top = v`. */
    method SetTop(v: Value)
      requires Holds(stack, state.slots, state.store) && top == base + |state.slots| && 0 <= top - base < stack.Length
      requires Same(state, Pushed(state, v)) && Load(Pushed(state, v), Pushed(state, v).slots[|state.slots|]) == v
      modifies stack
      ensures Holds(stack, Pushed(state, v).slots, Pushed(state, v).store)
    {
      stack[top - base] := v;
    }

    /** The search of `jml_vm_upvalue_capture`: `k` open upvalues lie above the address. */
    method Search(local: int) returns (previous: Upvalue?, current: Upvalue?, ghost k: nat)
      requires Linked(open, list) && Pointing(base, list, at)
      ensures k <= |list| && current == From(list, k) && previous == (if k == 0 then null else list[k - 1])
      ensures forall i :: 0 <= i < k ==> at[i] > local - base
      ensures k < |list| ==> at[k] <= local - base
    {
      previous := null;
      current := open;
      k := 0;
      while current != null && current.location.address > local
        invariant 0 <= k <= |list| && current == From(list, k) && previous == (if k == 0 then null else list[k - 1])
        invariant forall i :: 0 <= i < k ==> at[i] > local - base
        decreases |list| - k
      {
        previous := current;
        current := current.next;
        k := k + 1;
      }
    }

    /** A new upvalue is linked in between. */
    method LinkIn(previous: Upvalue?, current: Upvalue?, local: int, ghost k: nat, ghost slot: nat) returns (made: Upvalue)
      requires Linked(open, list) && Pointing(base, list, at) && local == base + slot
      requires forall i, j :: 0 <= i < j < |list| ==> list[i] != list[j]
      requires k <= |list| && current == From(list, k) && previous == (if k == 0 then null else list[k - 1])
      modifies `open, list`next
      ensures fresh(made)
      ensures Linked(open, Inserted(list, k, made)) && Pointing(base, Inserted(list, k, made), Inserted(at, k, slot))
    {
      hide Inserted, Pointing;
      made := new Upvalue(local);
      made.next := current;
      if previous == null {
        open := made;
      } else {
        previous.next := made;
      }
      assert NextBut(list, k, made) && open == if k == 0 then made else list[0];
      hide Linked, From, NextBut;
      LinkedInserted(open, list, k, made);
      PointingInserted(base, list, at, k, made, slot);
    }

    /** The branch of `jml_vm_upvalue_capture` that makes an upvalue. */
    method AddUpvalue(previous: Upvalue?, current: Upvalue?, local: int, ghost k: nat, ghost slot: nat) returns (made: Upvalue)
      requires Valid() && slot < |state.slots| && local == base + slot
      requires k <= |list| && current == From(list, k) && previous == (if k == 0 then null else list[k - 1])
      requires (forall i :: 0 <= i < k ==> at[i] > slot) && (k < |list| ==> at[k] < slot)
      modifies `open, `state, `list, `at, `cell, cell.Keys`next
      ensures Valid() && state == WithCaptured(old(state), old(state).slots[slot])
      ensures made in cell && cell[made] == state.slots[slot]
      ensures Extends(old(cell), cell) && fresh(cell.Keys - old(cell.Keys))
    {
      hide Shape, Matching, Aligned, Holds, Linked, Pointing, Inserted, Fetch, Closed, Extends, NotOpen, From;
      ShapeDistinct(state, list, at, cell, |state.slots|);
      NotOpenApart(list, cell);
      made := LinkIn(previous, current, local, k, slot);
      Adopt(made, k, slot);
    }

    /** A linked-in upvalue is entered in the books. */
    ghost method Adopt(made: Upvalue, k: nat, slot: nat)
      requires Shape(state, list, at, cell, |state.slots|) && Holds(stack, state.slots, state.store) && Sized()
      requires done == NotOpen(list, cell) && Closed(state.store, done, cell) && Aligned(frames, base, state.frames)
      requires Matching(closures, state.funcs, cell) && (frames != [] ==> top == base + |state.slots|)
      requires slot < |state.slots| && k <= |list| == |at| && made !in cell
      requires (forall i :: 0 <= i < k ==> at[i] > slot) && (k < |list| ==> at[k] < slot)
      requires Linked(open, Inserted(list, k, made)) && Pointing(base, Inserted(list, k, made), Inserted(at, k, slot))
      modifies `state, `list, `at, `cell
      ensures Valid() && state == WithCaptured(old(state), old(state).slots[slot])
      ensures cell == old(cell)[made := old(state).slots[slot]] && Extends(old(cell), cell)
    {
      hide Shape, Matching, Aligned, Holds, Linked, Pointing, Inserted, Fetch, Closed, Extends, NotOpen;
      ghost var more := cell[made := state.slots[slot]];
      ShapeInsert(state, list, at, cell, k, made, slot);
      Adopted(state.store, list, cell, done, k, made, state.slots[slot]);
      MatchingExtends(closures, state.funcs, cell, more);
      list, at, cell := Inserted(list, k, made), Inserted(at, k, slot), more;
      state := WithCaptured(state, state.slots[slot]);
    }

    /** `jml_vm_upvalue_capture`: the open upvalue of an address, made and linked in if there is none. */
    method Capture(local: int, ghost slot: nat) returns (upvalue: Upvalue)
      requires Valid() && slot < |state.slots| && local == base + slot
      modifies `open, `state, `list, `at, `cell, cell.Keys`next
      ensures Valid() && state == WithCaptured(old(state), old(state).slots[slot])
      ensures upvalue in cell && cell[upvalue] == state.slots[slot]
      ensures Extends(old(cell), cell) && fresh(cell.Keys - old(cell.Keys))
    {
      hide Shape, Matching, Aligned, Holds, Closed, NotOpen;
      var previous, current, k := Search(local);
      hide Linked;
      if current != null && current.location == InStack(local) {
        ShapeFound(state, list, at, cell, k);
        return current;
      }
      upvalue := AddUpvalue(previous, current, local, k, slot);
    }

    /** One turn of `jml_vm_upvalue_close`: the first open upvalue takes its value along. */
    method CloseFirst(ghost live: nat)
      requires Coupled(live) && list != [] && live <= at[0]
      modifies `open, `list, `at, `done, open`location, open`closed
      ensures Coupled(live) && list == old(list)[1..] && at == old(at)[1..]
    {
      hide Shape, Matching, Aligned, NotOpen, Linked, Pointing, Closed, Holds, Fetch;
      ShapeClose(state, list, at, cell, live);
      NotOpenApart(list, cell);
      FirstOpen(open, base, list, at);
      HoldsAt(stack, state.slots, state.store, at[0]);
      LinkedRest(open, list);
      PointingRest(base, list, at);
      var upvalue := open;
      upvalue.closed := stack[upvalue.location.address - base];
      upvalue.location := Own;
      open := upvalue.next;
      ClosedMore(state.store, done, cell, upvalue);
      list, at, done := list[1..], at[1..], done + {upvalue};
    }

    /** `jml_vm_upvalue_close`: every upvalue at or above an address is closed, and its slot given up. */
    method CloseUpvalues(last: int, ghost live: nat)
      requires Coupled(|state.slots|) && Sized() && live <= |state.slots| && last == base + live
      modifies `open, `state, `list, `at, `done, list`location, list`closed
      ensures Coupled(live) && Sized() && state == Shrunk(old(state), live)
    {
      hide Shape, Matching, Aligned, NotOpen, Holds, Closed, Linked;
      ShapeLess(state, list, at, cell, live);
      ghost var all := list;
      ghost var n := 0;
      OpenFirst(open, list);
      while open != null && open.location.address >= last
        invariant 0 <= n <= |all| && list == all[n..] && open == From(list, 0)
        invariant Coupled(live) && state == old(state)
        decreases |list|
      {
        CloseFirst(live);
        n := n + 1;
        OpenFirst(open, list);
      }
      ShapeShrink(state, list, at, cell, live);
      HoldsLess(stack, state.slots, state.store, live);
      state := Shrunk(state, live);
    }

    /** `*upvalue->location`. */
    method ReadUpvalue(u: Upvalue) returns (v: Value)
      requires Valid() && u in cell
      ensures v == Load(state, cell[u])
    {
      hide Matching, Aligned, Linked;
      UpvaluePlace(state, base, list, at, cell, done, stack, u);
      match u.location
      case InStack(a) => v := stack[a - base];
      case Own => v := u.closed;
    }

    /** A store to a slot is a store to its cell. */
    method WriteSlot(i: nat, v: Value)
      requires Valid() && i < |state.slots|
      modifies `state, stack
      ensures Valid() && state == Put(old(state), old(state).slots[i], v)
    {
      hide Shape, Matching, Aligned, Linked, Pointing, NotOpen, Closed;
      SlotCell(state, list, at, cell, done, i);
      ghost var next := Put(state, state.slots[i], v);
      ClosedPut(state.store, next.store, done, cell, state.slots[i]);
      stack[i] := v;
      HoldsPut(stack, old(stack[..]), state, i, v);
      ShapeSame(state, next, list, at, cell);
      state := next;
    }

    method WriteOwn(u: Upvalue, v: Value)
      requires Valid() && u in done && u in cell
      modifies `state, u`closed
      ensures Valid() && state == Put(old(state), cell[u], v)
    {
      hide Shape, Matching, Aligned, Linked, Pointing, NotOpen, Holds;
      OwnCell(state, list, at, cell, done, u);
      ghost var next := Put(state, cell[u], v);
      HoldsElsewhere(stack, state, next);
      ShapeSame(state, next, list, at, cell);
      u.closed := v;
      state := next;
    }

    /** `*upvalue->location = v`. */
    method WriteUpvalue(u: Upvalue, v: Value)
      requires Valid() && u in cell
      modifies `state, stack, u`closed
      ensures Valid() && state == Put(old(state), cell[u], v)
    {
      hide Shape, Matching, Aligned, Linked;
      UpvaluePlace(state, base, list, at, cell, done, stack, u);
      hide Pointing, Holds, Closed, NotOpen, Put;
      match u.location
      case InStack(a) => WriteSlot(a - base, v);
      case Own => WriteOwn(u, v);
    }

    ghost method See(v: Value)
      requires Valid()
      modifies `state
      ensures Valid() && state == Seen(old(state), v)
    {
      hide Matching, Aligned, Linked, Pointing, NotOpen, Closed, Shape, Holds;
      ShapeSame(state, Seen(state, v), list, at, cell);
      state := Seen(state, v);
    }

    /* The instructions, each tied to the machine of cells. */

    method DoPop()
      requires Valid() && Proper(state, CellMachine.Pop)
      modifies `top, `state
      ensures Valid() && Ran(state) == Step(old(state), CellMachine.Pop)
    {
      hide Matching, Linked, Pointing, NotOpen, Closed, Shape, Holds;
      ghost var live := |state.slots| - 1;
      ShapePop(state, list, at, cell);
      HoldsLess(stack, state.slots, state.store, live);
      top := top - 1;
      state := Shrunk(state, live);
    }

    method DoGetLocal(k: nat) returns (ok: bool)
      requires Valid() && Proper(state, GetLocal(k))
      modifies this, stack, list`location
      ensures ok == Step(old(state), GetLocal(k)).Ran?
      ensures ok ==> Valid() && Ran(state) == Step(old(state), GetLocal(k))
      ensures cell == old(cell) && (stack == old(stack) || fresh(stack))
    {
      hide Matching, Linked, Pointing, NotOpen, Closed, Shape;
      var frame := frames[|frames| - 1];
      var v := stack[frame.slots + k - base];
      hide Holds, Aligned;
      ok := PushValue(v);
      if ok {
        See(v);
      }
    }

    method DoSetLocal(k: nat)
      requires Valid() && Proper(state, SetLocal(k))
      modifies `state, stack
      ensures Valid() && Ran(state) == Step(old(state), SetLocal(k))
    {
      hide Matching, Linked, Pointing, NotOpen, Closed, Shape;
      var frame := frames[|frames| - 1];
      var v := stack[top - 1 - base];
      WriteSlot(frame.slots + k - base, v);
    }

    method DoGetUpvalue(k: nat) returns (ok: bool)
      requires Valid() && Proper(state, GetUpvalue(k))
      modifies this, stack, list`location
      ensures ok == Step(old(state), GetUpvalue(k)).Ran?
      ensures ok ==> Valid() && Ran(state) == Step(old(state), GetUpvalue(k))
      ensures cell == old(cell) && (stack == old(stack) || fresh(stack))
    {
      hide Linked, Pointing, NotOpen, Closed, Shape, Holds;
      var frame := frames[|frames| - 1];
      var u := closures[frame.closure].upvalues[k];
      hide Matching, Aligned;
      var v := ReadUpvalue(u);
      ok := PushValue(v);
      if ok {
        See(v);
      }
    }

    method DoSetUpvalue(k: nat)
      requires Valid() && Proper(state, SetUpvalue(k))
      modifies `state, stack, cell.Keys`closed
      ensures Valid() && Ran(state) == Step(old(state), SetUpvalue(k))
    {
      hide Linked, Pointing, NotOpen, Closed, Shape;
      var frame := frames[|frames| - 1];
      var u := closures[frame.closure].upvalues[k];
      var v := stack[top - 1 - base];
      WriteUpvalue(u, v);
    }

    method DoCloseUpvalue()
      requires Valid() && Proper(state, CloseUpvalue)
      modifies `top, `open, `state, `list, `at, `done, list`location, list`closed
      ensures Valid() && Ran(state) == Step(old(state), CloseUpvalue)
    {
      hide Matching, Linked, Pointing, NotOpen, Closed, Shape, Holds;
      CloseUpvalues(top - 1, |state.slots| - 1);
      top := top - 1;
    }

    /** One captured variable. */
    method DoCapture(c: CellMachine.Capture) returns (u: Upvalue)
      requires Valid() && CaptureFits(state, c)
      modifies `open, `state, `list, `at, `cell, cell.Keys`next
      ensures Valid() && Extends(old(cell), cell) && fresh(cell.Keys - old(cell.Keys))
      ensures u in cell && cell[u] == CellOf(old(state), c)
      ensures state == old(state).(captured := old(state).captured + (if c.isLocal then {CellOf(old(state), c)} else {}))
    {
      hide Linked, Pointing, NotOpen, Closed, Shape, Holds;
      var frame := frames[|frames| - 1];
      if c.isLocal {
        u := Capture(frame.slots + c.index, Current(state).base + c.index);
      } else {
        u := closures[frame.closure].upvalues[c.index];
      }
    }

    /** The loop of OP_CLOSURE over the captured variables. */
    method CaptureAll(captures: seq<CellMachine.Capture>) returns (upvalues: seq<Upvalue>)
      requires Valid() && CapturesFit(state, captures)
      modifies `open, `state, `list, `at, `cell, cell.Keys`next
      ensures Valid() && Extends(old(cell), cell) && fresh(cell.Keys - old(cell.Keys))
      ensures Held(upvalues, cell, Cells(old(state), captures))
      ensures state == old(state).(captured := old(state).captured + Locals(old(state), captures))
    {
      hide Matching, Aligned, Linked, Pointing, NotOpen, Closed, Shape, Holds, Extends, Cells, Locals, Held;
      ghost var start := state;
      upvalues := [];
      var i := 0;
      ExtendsItself(cell);
      NoCells(start, cell);
      while i < |captures|
        invariant 0 <= i <= |captures|
        invariant Valid() && Extends(old(cell), cell) && fresh(cell.Keys - old(cell.Keys))
        invariant CapturesFit(start, captures[..i])
        invariant state == start.(captured := start.captured + Locals(start, captures[..i]))
        invariant Held(upvalues, cell, Cells(start, captures[..i]))
      {
        ghost var before := cell;
        var u := DoCapture(captures[i]);
        MoreCells(start, captures, i, upvalues, before, cell, u);
        ExtendsTwice(old(cell), before, cell);
        upvalues := upvalues + [u];
        i := i + 1;
      }
      assert captures[..i] == captures;
    }

    method DoMakeClosure(arity: nat, captures: seq<CellMachine.Capture>) returns (ok: bool)
      requires Valid() && Proper(state, MakeClosure(arity, captures))
      modifies this, stack, list`location, cell.Keys`next
      ensures ok == Step(old(state), MakeClosure(arity, captures)).Ran?
      ensures ok ==> Valid() && Ran(state) == Step(old(state), MakeClosure(arity, captures))
      ensures Extends(old(cell), cell) && fresh(cell.Keys - old(cell.Keys)) && (stack == old(stack) || fresh(stack))
    {
      hide Linked, Pointing, NotOpen, Closed, Shape, Holds, Extends, Cells, Locals, Held, Matching, Aligned;
      ghost var start := state;
      ShapeDistinct(state, list, at, cell, |state.slots|);
      ExtendsItself(cell);
      FuncsAlike();
      FramesAlike();
      ok := PushValue(Closure(|closures|));
      if ok {
        SameCells(start, state, Closure(|start.funcs|), captures);
        BindClosure(arity, captures);
      }
    }

    lemma FuncsAlike()
      requires Valid()
      ensures |closures| == |state.funcs|
    {
    }

    /** The rest of OP_CLOSURE, the closure having been pushed. */
    method BindClosure(arity: nat, captures: seq<CellMachine.Capture>)
      requires Valid() && CapturesFit(state, captures)
      modifies this, cell.Keys`next
      ensures Valid() && Extends(old(cell), cell) && fresh(cell.Keys - old(cell.Keys)) && stack == old(stack)
      ensures state == old(state).(funcs := old(state).funcs + [Func(arity, Cells(old(state), captures))],
                                   captured := old(state).captured + Locals(old(state), captures))
    {
      hide Linked, Pointing, NotOpen, Closed, Shape, Holds, Extends, Cells, Locals, Held, Matching, Aligned;
      ghost var cells := Cells(state, captures);
      var upvalues := CaptureAll(captures);
      MatchingMore(closures, state.funcs, cell, arity, upvalues, cells);
      ghost var next := state.(funcs := state.funcs + [Func(arity, cells)]);
      ShapeSame(state, next, list, at, cell);
      closures := closures + [ClosureObj(arity, upvalues)];
      state := next;
    }

    /** `jml_vm_call` of a closure, not variadic. */
    method DoCall(n: nat) returns (r: Ending)
      requires Valid() && Proper(state, Call(n))
      modifies this, list`location
      ensures r == EndingOf(Step(old(state), Call(n)))
      ensures r == Fine ==> Valid() && Ran(state) == Step(old(state), Call(n))
      ensures cell == old(cell) && (stack == old(stack) || fresh(stack))
    {
      hide Linked, Pointing, NotOpen, Closed, Shape;
      var callee := stack[top - n - 1 - base];
      hide Holds;
      if !callee.Closure? || callee.id >= |closures| {
        return Failed;
      }
      var closure := closures[callee.id];
      if n < closure.arity || n > closure.arity {
        return Failed;
      }
      if |frames| == FRAMES_MAX {
        return Failed;
      }
      hide Matching;
      if |frames| + 1 >= frameCapacity {
        var ok := MoreFrames();
        if !ok {
          return Gone;
        }
      }
      ghost var next := Entered(state, n, callee.id);
      ShapeSame(state, next, list, at, cell);
      frames := frames + [CallFrame(top - n - 1, callee.id)];
      state := next;
      return Fine;
    }

    /** The frames are enlarged, and the stack along with them. */
    method MoreFrames() returns (ok: bool)
      requires Valid()
      modifies this, list`location
      ensures ok == CanGrow(old(state))
      ensures ok ==> Valid() && state == Grown(old(state)).(depth := 2 * old(state).depth)
      ensures list == old(list) && at == old(at) && cell == old(cell) && closures == old(closures) && |frames| == |old(frames)|
      ensures (stack == old(stack) || fresh(stack)) && top - base == old(top) - old(base)
    {
      hide Linked, Pointing, NotOpen, Closed, Shape, Holds, Matching, Aligned;
      frameCapacity := frameCapacity * 2;
      ghost var deeper := state.(depth := 2 * state.depth);
      ShapeSame(state, deeper, list, at, cell);
      state := deeper;
      ok := Grow();
    }

    /** OP_RETURN up to the test for the last frame: the frame goes and its variables are closed. */
    method DropFrame() returns (slots: int, result: Value)
      requires Valid() && Proper(state, Return)
      modifies `top, `open, `state, `list, `at, `done, `frames, list`location, list`closed
      ensures frames != [] <==> state.frames != []
      ensures Coupled(|state.slots|) && Sized() && top == old(top) - 1 && slots == base + |state.slots|
      ensures |state.slots| + 1 <= top - base
      ensures result == Load(old(state), old(state).slots[|old(state).slots| - 1])
      ensures state == Shrunk(old(state), Current(old(state)).base).(frames := old(state).frames[..|old(state).frames| - 1])
    {
      hide Matching, Linked, Pointing, NotOpen, Closed, Shape, Grown, CanGrow;
      slots := frames[|frames| - 1].slots;
      result := stack[top - 1 - base];
      hide Holds;
      ghost var live := Current(state).base;
      top := top - 1;
      CloseUpvalues(slots, live);
      frames := frames[..|frames| - 1];
      ghost var left := state.(frames := state.frames[..|state.frames| - 1]);
      ShapeSame(state, left, list, at, cell);
      state := left;
    }

    method DoReturn()
      requires Valid() && Proper(state, Return)
      modifies this, stack, cell.Keys`location, cell.Keys`closed
      ensures Valid() && Ran(state) == Step(old(state), Return)
      ensures cell == old(cell) && (stack == old(stack) || fresh(stack))
    {
      hide Matching, Linked, Pointing, NotOpen, Closed, Shape, Holds, Aligned;
      ShapeDistinct(state, list, at, cell, |state.slots|);
      var slots, result := DropFrame();
      ShapeDistinct(state, list, at, cell, |state.slots|);
      Resume(slots, result);
      See(result);
    }

    /** The result stands where the call stood, unless the last frame has returned. */
    method Resume(slots: int, result: Value)
      requires Coupled(|state.slots|) && Sized() && slots == base + |state.slots|
      requires top >= base + 1 && |state.slots| + 1 <= top - base
      modifies `state, `top, stack
      ensures Valid() && state == if frames == [] then old(state) else Pushed(old(state), result)
    {
      hide Matching, Linked, Pointing, NotOpen, Closed, Shape, Holds, Aligned;
      if frames == [] {
        top := top - 1;
      } else {
        top := slots;
        Enlarged(result);
      }
    }

    /** The dispatch. */
    method Execute(i: Instr) returns (r: Ending)
      requires Valid() && Proper(state, i)
      modifies this, stack, cell.Keys
      ensures r == EndingOf(Step(old(state), i))
      ensures r == Fine ==> Valid() && state == Step(old(state), i).state
      ensures Extends(old(cell), cell) && fresh(cell.Keys - old(cell.Keys)) && (stack == old(stack) || fresh(stack))
    {
      ShapeDistinct(state, list, at, cell, |state.slots|);
      ExtendsItself(cell);
      SafeWhen(state, i);
      hide Shape, Matching, Aligned, Linked, Pointing, NotOpen, Closed, Holds, Extends;
      var ok := true;
      match i {
        case Push(v) => ok := PushValue(v);
        case Pop => DoPop();
        case GetLocal(k) => ok := DoGetLocal(k);
        case SetLocal(k) => DoSetLocal(k);
        case GetUpvalue(k) => ok := DoGetUpvalue(k);
        case SetUpvalue(k) => DoSetUpvalue(k);
        case CloseUpvalue => DoCloseUpvalue();
        case MakeClosure(arity, captures) => ok := DoMakeClosure(arity, captures);
        case Call(n) =>
          r := DoCall(n);
          return;
        case Return => DoReturn();
      }
      r := if ok then Fine else Gone;
    }

    /**
      Any run, from any state reached: the machine of addresses and closed-over slots sees
      what the machine of cells sees, errs where it errs, and uses a coroutine that is gone
      exactly where that one runs over.
     */
    method RunAll(code: seq<Instr>) returns (r: Ending)
      requires Valid() && ProperRun(state, code)
      modifies this, stack, cell.Keys
      ensures r == EndingOf(Run(old(state), code))
      ensures r == Fine ==> Valid() && state == Run(old(state), code).state
    {
      hide Valid, Step, Proper;
      r := Fine;
      var i := 0;
      while i < |code| && frames != []
        invariant 0 <= i <= |code| && Valid() && r == Fine
        invariant ProperRun(state, code[i..]) && Run(state, code[i..]) == Run(old(state), code)
        invariant fresh(cell.Keys - old(cell.Keys)) && (stack == old(stack) || fresh(stack))
      {
        FramesAlike();
        assert code[i..][0] == code[i] && code[i..][1..] == code[i + 1..];
        r := Execute(code[i]);
        if r != Fine {
          return;
        }
        i := i + 1;
      }
      FramesAlike();
    }

    lemma FramesAlike()
      requires Valid()
      ensures frames == [] <==> state.frames == []
    {
    }
  }

  function EndingOf(o: Outcome): Ending {
    match o
    case Ran(_) => Fine
    case RuntimeError => Failed
    case Overrun => Gone
  }

  /** Captures do not depend on how much room there is. */
  lemma {:induction false} SameCells(s: State, pushed: State, v: Value, captures: seq<CellMachine.Capture>)
    requires PushStep(s, v) == Ran(pushed) && CapturesFit(Pushed(s, v), captures)
    ensures CapturesFit(pushed, captures)
    ensures Cells(pushed, captures) == Cells(Pushed(s, v), captures) && Locals(pushed, captures) == Locals(Pushed(s, v), captures)
    decreases |captures|
  {
    if captures != [] {
      SameCells(s, pushed, v, captures[..|captures| - 1]);
    }
  }

  lemma ExtendsItself(cell: map<Upvalue, nat>)
    ensures Extends(cell, cell)
  {
  }

  lemma ExtendsTwice(a: map<Upvalue, nat>, b: map<Upvalue, nat>, c: map<Upvalue, nat>)
    requires Extends(a, b) && Extends(b, c)
    ensures Extends(a, c)
  {
  }

  lemma NoCells(s: State, cell: map<Upvalue, nat>)
    ensures CapturesFit(s, []) && Held([], cell, Cells(s, [])) && s == s.(captured := s.captured + Locals(s, []))
  {
  }

  lemma MoreCells(s: State, captures: seq<CellMachine.Capture>, i: nat, upvalues: seq<Upvalue>,
                  cell: map<Upvalue, nat>, more: map<Upvalue, nat>, u: Upvalue)
    requires i < |captures| && CapturesFit(s, captures) && Held(upvalues, cell, Cells(s, captures[..i])) && Extends(cell, more)
    requires u in more && more[u] == CellOf(s, captures[i])
    ensures CapturesFit(s, captures[..i + 1]) && Held(upvalues + [u], more, Cells(s, captures[..i + 1]))
    ensures s.captured + Locals(s, captures[..i + 1]) ==
      s.captured + Locals(s, captures[..i]) + (if captures[i].isLocal then {CellOf(s, captures[i])} else {})
  {
    assert captures[..i + 1][..i] == captures[..i];
  }

  lemma MatchingMore(closures: seq<ClosureObj>, funcs: seq<Func>, cell: map<Upvalue, nat>, arity: nat,
                     upvalues: seq<Upvalue>, cells: seq<nat>)
    requires Matching(closures, funcs, cell) && Held(upvalues, cell, cells)
    ensures Matching(closures + [ClosureObj(arity, upvalues)], funcs + [Func(arity, cells)], cell)
  {
  }

  /** The upvalues of a closure are those of its cells. */
  ghost predicate Held(upvalues: seq<Upvalue>, cell: map<Upvalue, nat>, cells: seq<nat>) {
    |upvalues| == |cells| && forall j :: 0 <= j < |upvalues| ==> upvalues[j] in cell && cell[upvalues[j]] == cells[j]
  }

  /** A slot no upvalue is known for may simply be dropped. */
  lemma ShapePop(s: State, list: seq<Upvalue>, at: seq<nat>, cell: map<Upvalue, nat>)
    requires Shape(s, list, at, cell, |s.slots|) && s.slots != [] && s.slots[|s.slots| - 1] !in s.captured
    ensures Shape(Shrunk(s, |s.slots| - 1), list, at, cell, |s.slots| - 1)
  {
    ShapeLess(s, list, at, cell, |s.slots| - 1);
    ShapeShrink(s, list, at, cell, |s.slots| - 1);
  }

  /** Where the value of an upvalue is. */
  lemma UpvaluePlace(s: State, base: int, list: seq<Upvalue>, at: seq<nat>, cell: map<Upvalue, nat>, done: set<Upvalue>,
                     stack: array<Value>, u: Upvalue)
    requires Shape(s, list, at, cell, |s.slots|) && Pointing(base, list, at) && done == NotOpen(list, cell)
    requires Closed(s.store, done, cell) && Holds(stack, s.slots, s.store) && u in cell
    ensures match u.location
            case InStack(a) => 0 <= a - base < |s.slots| && s.slots[a - base] == cell[u] && stack[a - base] == Load(s, cell[u])
            case Own => u in done && u.closed == Load(s, cell[u])
  {
    if u in list {
      var i :| 0 <= i < |list| && list[i] == u;
      assert u.location == InStack(base + at[i]);
    } else {
      assert u in done;
    }
  }

  /** The cell of a slot is that of no closed upvalue. */
  lemma SlotCell(s: State, list: seq<Upvalue>, at: seq<nat>, cell: map<Upvalue, nat>, done: set<Upvalue>, i: nat)
    requires Shape(s, list, at, cell, |s.slots|) && done == NotOpen(list, cell) && i < |s.slots|
    ensures s.slots[i] < |s.store| && forall u :: u in done ==> u in cell && cell[u] != s.slots[i]
    ensures forall j :: 0 <= j < |s.slots| && j != i ==> s.slots[j] != s.slots[i]
  {
  }

  /** The cell of a closed upvalue is that of no slot and of no other upvalue. */
  lemma OwnCell(s: State, list: seq<Upvalue>, at: seq<nat>, cell: map<Upvalue, nat>, done: set<Upvalue>, u: Upvalue)
    requires Shape(s, list, at, cell, |s.slots|) && done == NotOpen(list, cell) && u in done
    ensures u in cell && cell[u] < |s.store| && forall j :: 0 <= j < |s.slots| ==> s.slots[j] != cell[u]
    ensures forall w :: w in done && w != u ==> w in cell && cell[w] != cell[u]
  {
  }

  lemma ClosedPut(store: seq<Value>, store': seq<Value>, done: set<Upvalue>, cell: map<Upvalue, nat>, c: nat)
    requires Closed(store, done, cell) && |store'| == |store|
    requires forall u :: u in done ==> u in cell && cell[u] != c
    requires forall d :: 0 <= d < |store| && d != c ==> store'[d] == store[d]
    ensures Closed(store', done, cell)
  {
  }

  lemma HoldsPut(stack: array<Value>, was: seq<Value>, s: State, i: nat, v: Value)
    requires |was| == stack.Length && i < |s.slots| <= |was| && s.slots[i] < |s.store|
    requires forall j :: 0 <= j < |s.slots| ==> was[j] == Load(s, s.slots[j])
    requires forall j :: 0 <= j < |s.slots| && j != i ==> s.slots[j] != s.slots[i]
    requires stack[..] == was[i := v]
    ensures Holds(stack, s.slots, Put(s, s.slots[i], v).store)
  {
    forall j | 0 <= j < |s.slots| ensures stack[j] == Fetch(Put(s, s.slots[i], v).store, s.slots[j]) {
      assert stack[j] == stack[..][j];
    }
  }

  lemma HoldsElsewhere(stack: array<Value>, s: State, t: State)
    requires Holds(stack, s.slots, s.store)
    requires forall j :: 0 <= j < |s.slots| ==> Load(t, s.slots[j]) == Load(s, s.slots[j])
    ensures Holds(stack, s.slots, t.store)
  {
  }

  lemma ShapeSame(s: State, t: State, list: seq<Upvalue>, at: seq<nat>, cell: map<Upvalue, nat>)
    requires Shape(s, list, at, cell, |s.slots|)
    requires t.slots == s.slots && |t.store| == |s.store| && s.captured <= t.captured
    ensures Shape(t, list, at, cell, |t.slots|)
  {
  }

  lemma ShapeGrown(s: State, list: seq<Upvalue>, at: seq<nat>, cell: map<Upvalue, nat>)
    requires Shape(s, list, at, cell, |s.slots|)
    ensures Shape(Grown(s), list, at, cell, |s.slots|)
  {
    hide Shape;
    ShapeSame(s, Grown(s), list, at, cell);
  }

  lemma OpenFirst(open: Upvalue?, list: seq<Upvalue>)
    requires Linked(open, list)
    ensures open == From(list, 0)
  {
  }

  /** The upvalues from `lo` to `hi` point into a block at `base`. */
  ghost predicate Part(base: int, list: seq<Upvalue>, at: seq<nat>, lo: nat, hi: nat)
    requires lo <= hi <= |list| == |at|
    reads list`location
  {
    forall i :: lo <= i < hi ==> list[i].location == InStack(base + at[i])
  }

  lemma NoPart(base: int, oldBase: int, list: seq<Upvalue>, at: seq<nat>)
    requires Pointing(oldBase, list, at)
    ensures Part(base, list, at, 0, 0) && Part(oldBase, list, at, 0, |list|)
  {
  }

  lemma AllParts(base: int, list: seq<Upvalue>, at: seq<nat>)
    requires |at| == |list| && Part(base, list, at, 0, |list|)
    ensures Pointing(base, list, at)
  {
  }

  lemma LinkedRest(open: Upvalue?, list: seq<Upvalue>)
    requires Linked(open, list) && list != []
    ensures Linked(list[0].next, list[1..])
  {
    var rest := list[1..];
    forall i | 0 <= i < |rest| ensures rest[i].next == From(rest, i + 1) {
      assert rest[i] == list[i + 1];
    }
  }

  lemma PointingRest(base: int, list: seq<Upvalue>, at: seq<nat>)
    requires Pointing(base, list, at) && list != []
    ensures Pointing(base, list[1..], at[1..])
  {
  }

  lemma FirstOpen(open: Upvalue?, base: int, list: seq<Upvalue>, at: seq<nat>)
    requires Linked(open, list) && Pointing(base, list, at) && list != []
    ensures |at| == |list| && open == list[0] && list[0].location == InStack(base + at[0])
  {
  }

  lemma HoldsAt(stack: array<Value>, slots: seq<nat>, store: seq<Value>, i: nat)
    requires Holds(stack, slots, store) && i < |slots|
    ensures i < stack.Length && stack[i] == Fetch(store, slots[i])
  {
  }

  lemma ClosedMore(store: seq<Value>, done: set<Upvalue>, cell: map<Upvalue, nat>, u: Upvalue)
    requires Closed(store, done, cell) && u in cell && u.location == Own && u.closed == Fetch(store, cell[u])
    ensures Closed(store, done + {u}, cell)
  {
  }

  lemma NextOf(open: Upvalue?, list: seq<Upvalue>, k: nat)
    requires Linked(open, list) && k < |list|
    ensures list[k].next == From(list, k + 1)
  {
  }

  lemma ShapeLess(s: State, list: seq<Upvalue>, at: seq<nat>, cell: map<Upvalue, nat>, live: nat)
    requires Shape(s, list, at, cell, |s.slots|) && live <= |s.slots|
    ensures Shape(s, list, at, cell, live)
  {
  }

  /** With nothing open at or above it, what is above the live part may go. */
  lemma ShapeShrink(s: State, list: seq<Upvalue>, at: seq<nat>, cell: map<Upvalue, nat>, live: nat)
    requires Shape(s, list, at, cell, live) && (list == [] || at[0] < live)
    ensures Shape(Shrunk(s, live), list, at, cell, live)
    ensures Shrunk(s, live).slots == s.slots[..live] && Shrunk(s, live).store == s.store
    ensures Shrunk(s, live).frames == s.frames && Shrunk(s, live).funcs == s.funcs
  {
    assert forall i :: 0 < i < |at| ==> at[0] > at[i];
  }

  lemma HoldsLess(stack: array<Value>, slots: seq<nat>, store: seq<Value>, live: nat)
    requires Holds(stack, slots, store) && live <= |slots|
    ensures Holds(stack, slots[..live], store)
  {
  }

  /** The first open upvalue, at or above the live part, may be closed. */
  lemma ShapeClose(s: State, list: seq<Upvalue>, at: seq<nat>, cell: map<Upvalue, nat>, live: nat)
    requires Shape(s, list, at, cell, live) && list != [] && live <= at[0]
    ensures Shape(s, list[1..], at[1..], cell, live)
    ensures NotOpen(list[1..], cell) == NotOpen(list, cell) + {list[0]}
    ensures list[0] !in list[1..] && list[0] in cell && at[0] < |s.slots| && cell[list[0]] == s.slots[at[0]]
  {
    ShapeDistinct(s, list, at, cell, live);
    assert forall u :: u in list <==> u == list[0] || u in list[1..];
  }

  function Inserted<T>(s: seq<T>, k: nat, x: T): (r: seq<T>)
    requires k <= |s|
  {
    s[..k] + [x] + s[k..]
  }

  function WithCaptured(s: State, c: nat): State {
    s.(captured := s.captured + {c})
  }

  ghost predicate Extends(cell: map<Upvalue, nat>, more: map<Upvalue, nat>) {
    forall u :: u in cell ==> u in more && more[u] == cell[u]
  }

  lemma MatchingExtends(closures: seq<ClosureObj>, funcs: seq<Func>, cell: map<Upvalue, nat>, more: map<Upvalue, nat>)
    requires Matching(closures, funcs, cell) && Extends(cell, more)
    ensures Matching(closures, funcs, more)
  {
  }

  lemma NotOpenApart(list: seq<Upvalue>, cell: map<Upvalue, nat>)
    ensures forall u :: u in NotOpen(list, cell) ==> u in cell && u !in list
  {
  }

  lemma Adopted(store: seq<Value>, list: seq<Upvalue>, cell: map<Upvalue, nat>, done: set<Upvalue>, k: nat, made: Upvalue, c: nat)
    requires Closed(store, done, cell) && done == NotOpen(list, cell) && k <= |list| && made !in cell
    ensures Closed(store, done, cell[made := c]) && done == NotOpen(Inserted(list, k, made), cell[made := c])
    ensures Extends(cell, cell[made := c])
  {
    InsertedAt(list, k, made);
    hide Inserted;
  }

  lemma ShapeFound(s: State, list: seq<Upvalue>, at: seq<nat>, cell: map<Upvalue, nat>, k: nat)
    requires Shape(s, list, at, cell, |s.slots|) && k < |list|
    ensures at[k] < |s.slots| && WithCaptured(s, s.slots[at[k]]) == s && list[k] in cell && cell[list[k]] == s.slots[at[k]]
  {
    assert s.captured + {s.slots[at[k]]} == s.captured;
  }

  lemma InsertedAt<T>(s: seq<T>, k: nat, x: T)
    requires k <= |s|
    ensures |Inserted(s, k, x)| == |s| + 1 && Inserted(s, k, x)[k] == x
    ensures forall i :: 0 <= i < k ==> Inserted(s, k, x)[i] == s[i]
    ensures forall i :: k < i <= |s| ==> Inserted(s, k, x)[i] == s[i - 1]
    ensures forall y :: y in Inserted(s, k, x) <==> y == x || y in s
  {
    var r := Inserted(s, k, x);
    forall i | 0 <= i < |s| ensures s[i] in r {
      assert r[if i < k then i else i + 1] == s[i];
    }
    assert r[k] == x;
  }

  /** Linked in order, except that `made` comes in before the place `k`. */
  ghost predicate NextBut(list: seq<Upvalue>, k: nat, made: Upvalue)
    reads list`next
  {
    forall i :: 0 <= i < |list| ==> list[i].next == if i + 1 == k then made else From(list, i + 1)
  }

  lemma LinkedInserted(open: Upvalue?, list: seq<Upvalue>, k: nat, made: Upvalue)
    requires k <= |list| && open == (if k == 0 then made else list[0]) && made.next == From(list, k)
    requires NextBut(list, k, made)
    ensures Linked(open, Inserted(list, k, made))
  {
    InsertedAt(list, k, made);
    var r := Inserted(list, k, made);
    hide Inserted;
    forall i | 0 <= i < |r| ensures r[i].next == From(r, i + 1) {
      if i < k {
        assert r[i] == list[i];
      } else if i > k {
        assert r[i] == list[i - 1];
      }
    }
  }

  lemma PointingInserted(base: int, list: seq<Upvalue>, at: seq<nat>, k: nat, made: Upvalue, slot: nat)
    requires Pointing(base, list, at) && k <= |list| && made.location == InStack(base + slot)
    ensures Pointing(base, Inserted(list, k, made), Inserted(at, k, slot))
  {
    InsertedAt(list, k, made);
    InsertedAt(at, k, slot);
    hide Inserted;
  }

  /** A slot without an open upvalue shares its cell with no upvalue at all. */
  lemma NotCaptured(s: State, list: seq<Upvalue>, at: seq<nat>, cell: map<Upvalue, nat>, k: nat, slot: nat)
    requires Shape(s, list, at, cell, |s.slots|) && k <= |list| && slot < |s.slots|
    requires (forall i :: 0 <= i < k ==> at[i] > slot) && (k < |list| ==> at[k] < slot)
    ensures forall w :: w in cell ==> cell[w] != s.slots[slot]
  {
    forall w | w in cell ensures cell[w] != s.slots[slot] {
      if w in list {
        var i :| 0 <= i < |list| && list[i] == w;
        assert at[i] != slot;
      }
    }
  }

  /** A new upvalue for a slot without one, put where the list stays descending. */
  lemma ShapeInsert(s: State, list: seq<Upvalue>, at: seq<nat>, cell: map<Upvalue, nat>, k: nat, made: Upvalue, slot: nat)
    requires Shape(s, list, at, cell, |s.slots|) && k <= |list| && slot < |s.slots| && made !in cell
    requires (forall i :: 0 <= i < k ==> at[i] > slot) && (k < |list| ==> at[k] < slot)
    ensures Shape(WithCaptured(s, s.slots[slot]), Inserted(list, k, made), Inserted(at, k, slot),
                  cell[made := s.slots[slot]], |s.slots|)
  {
    NotCaptured(s, list, at, cell, k, slot);
    InsertedAt(list, k, made);
    InsertedAt(at, k, slot);
    var s' := WithCaptured(s, s.slots[slot]);
    var list', at', cell' := Inserted(list, k, made), Inserted(at, k, slot), cell[made := s.slots[slot]];
    hide Inserted;
    DescendingInserted(at, at', k, slot);
    OpenInserted(s, s', list, list', at, at', cell, cell', k, made, slot);
    hide OpenOk, Descending;
  }

  lemma DescendingInserted(at: seq<nat>, at': seq<nat>, k: nat, slot: nat)
    requires Descending(at) && k <= |at| && |at'| == |at| + 1 && at'[k] == slot
    requires forall i :: 0 <= i < k ==> at'[i] == at[i]
    requires forall i :: k < i <= |at| ==> at'[i] == at[i - 1]
    requires (forall i :: 0 <= i < k ==> at[i] > slot) && (k < |at| ==> at[k] < slot)
    ensures Descending(at')
  {
    forall i, j | 0 <= i < j < |at'| ensures at'[i] > at'[j] {
      if i < k && j > k {
        assert at[i] > at[j - 1];
      } else if i > k {
        assert at[i - 1] > at[j - 1];
      } else if i == k {
        assert j - 1 == k || at[k] > at[j - 1];
      }
    }
  }

  lemma OpenInserted(s: State, s': State, list: seq<Upvalue>, list': seq<Upvalue>, at: seq<nat>, at': seq<nat>,
                     cell: map<Upvalue, nat>, cell': map<Upvalue, nat>, k: nat, made: Upvalue, slot: nat)
    requires OpenOk(s, list, at, cell) && k <= |list| && s'.slots == s.slots && slot < |s.slots|
    requires |list'| == |list| + 1 && list'[k] == made && made !in cell && cell' == cell[made := s.slots[slot]]
    requires forall i :: 0 <= i < k ==> list'[i] == list[i]
    requires forall i :: k < i <= |list| ==> list'[i] == list[i - 1]
    requires |at'| == |at| + 1 && at'[k] == slot
    requires forall i :: 0 <= i < k ==> at'[i] == at[i]
    requires forall i :: k < i <= |at| ==> at'[i] == at[i - 1]
    ensures OpenOk(s', list', at', cell')
  {
  }

  /** The slots of `s` are those of `t`, with the same values. */
  ghost predicate Same(s: State, t: State) {
    |s.slots| < |t.slots| && forall i :: 0 <= i < |s.slots| ==> t.slots[i] == s.slots[i] && Load(t, s.slots[i]) == Load(s, s.slots[i])
  }

  ghost function From(list: seq<Upvalue>, i: nat): Upvalue? {
    if i < |list| then list[i] else null
  }

  /** The values on the stack are those of the cells. */
  ghost predicate Holds(stack: array<Value>, slots: seq<nat>, store: seq<Value>)
    reads stack
  {
    |slots| <= stack.Length && forall i :: 0 <= i < |slots| ==> stack[i] == Fetch(store, slots[i])
  }

  /** The open list is linked in order. */
  ghost predicate Linked(open: Upvalue?, list: seq<Upvalue>)
    reads list`next
  {
    open == From(list, 0) && forall i :: 0 <= i < |list| ==> list[i].next == From(list, i + 1)
  }

  /** Each open upvalue points at its slot. */
  ghost predicate Pointing(base: int, list: seq<Upvalue>, at: seq<nat>)
    reads list`location
  {
    |at| == |list| && forall i :: 0 <= i < |list| ==> list[i].location == InStack(base + at[i])
  }

  /** Each closed upvalue points at itself and holds the value of its cell. */
  ghost predicate Closed(store: seq<Value>, done: set<Upvalue>, cell: map<Upvalue, nat>)
    reads done
  {
    forall u :: u in done ==> u in cell && u.location == Own && u.closed == Fetch(store, cell[u])
  }

  ghost function NotOpen(list: seq<Upvalue>, cell: map<Upvalue, nat>): set<Upvalue> {
    set u | u in cell && u !in list
  }

  ghost predicate Aligned(frames: seq<CallFrame>, base: int, model: seq<Frame>) {
    |frames| == |model| &&
    forall k :: 0 <= k < |frames| ==> frames[k] == CallFrame(base + model[k].base, model[k].closure)
  }

  /**
    The bookkeeping that no move of the stack touches: slots have cells of their own, open
    upvalues lie in strictly descending slots and share the cells of these, closed ones have
    cells off the live stack, and different upvalues are different variables.
   */
  ghost predicate Shape(s: State, list: seq<Upvalue>, at: seq<nat>, cell: map<Upvalue, nat>, live: nat) {
    live <= |s.slots| && SlotsOk(s) && OpenOk(s, list, at, cell) && Descending(at) &&
    Known(s, cell) && OffStack(s, list, cell, live) && Different(cell)
  }

  ghost predicate SlotsOk(s: State) {
    (forall i :: 0 <= i < |s.slots| ==> s.slots[i] < |s.store|) &&
    (forall i, j :: 0 <= i < j < |s.slots| ==> s.slots[i] != s.slots[j])
  }

  ghost predicate OpenOk(s: State, list: seq<Upvalue>, at: seq<nat>, cell: map<Upvalue, nat>) {
    |at| == |list| &&
    forall i :: 0 <= i < |at| ==> at[i] < |s.slots| && list[i] in cell && cell[list[i]] == s.slots[at[i]]
  }

  ghost predicate Descending(at: seq<nat>) {
    forall i, j :: 0 <= i < j < |at| ==> at[i] > at[j]
  }

  ghost predicate Known(s: State, cell: map<Upvalue, nat>) {
    forall u :: u in cell ==> cell[u] in s.captured && cell[u] < |s.store|
  }

  ghost predicate OffStack(s: State, list: seq<Upvalue>, cell: map<Upvalue, nat>, live: nat)
    requires live <= |s.slots|
  {
    forall u, i :: u in cell && u !in list && 0 <= i < live ==> cell[u] != s.slots[i]
  }

  ghost predicate Different(cell: map<Upvalue, nat>) {
    forall u, w :: u in cell && w in cell && u != w ==> cell[u] != cell[w]
  }

  lemma ShapePush(s: State, list: seq<Upvalue>, at: seq<nat>, cell: map<Upvalue, nat>, v: Value)
    requires Shape(s, list, at, cell, |s.slots|)
    ensures Shape(Pushed(s, v), list, at, cell, |s.slots| + 1)
  {
    var t := Pushed(s, v);
    assert t.slots[..|t.slots|] == t.slots;
    assert s.slots[..|s.slots|] == s.slots;
  }

  lemma ClosedKeep(store: seq<Value>, store': seq<Value>, done: set<Upvalue>, cell: map<Upvalue, nat>)
    requires Closed(store, done, cell)
    requires forall u :: u in cell ==> Fetch(store', cell[u]) == Fetch(store, cell[u])
    ensures Closed(store', done, cell)
  {
  }

  /** A push leaves the values of all known cells alone. */
  lemma PushKeeps(s: State, list: seq<Upvalue>, at: seq<nat>, cell: map<Upvalue, nat>, v: Value)
    requires Shape(s, list, at, cell, |s.slots|)
    ensures var t := Pushed(s, v);
      t.frames == s.frames && t.funcs == s.funcs && t.room == s.room && t.depth == s.depth && Shape(t, list, at, cell, |t.slots|) &&
      (forall u :: u in cell ==> Load(t, cell[u]) == Load(s, cell[u])) &&
      Same(s, t) && |t.slots| == |s.slots| + 1 && Load(t, t.slots[|s.slots|]) == v
  {
    ShapePush(s, list, at, cell, v);
  }

  lemma ShapeDistinct(s: State, list: seq<Upvalue>, at: seq<nat>, cell: map<Upvalue, nat>, live: nat)
    requires Shape(s, list, at, cell, live)
    ensures |at| == |list| && forall i, j :: 0 <= i < j < |list| ==> list[i] != list[j]
    ensures forall u :: u in list ==> u in cell
  {
  }

  ghost predicate Matching(closures: seq<ClosureObj>, funcs: seq<Func>, cell: map<Upvalue, nat>) {
    |closures| == |funcs| &&
    forall k :: 0 <= k < |closures| ==>
      closures[k].arity == funcs[k].arity && Held(closures[k].upvalues, cell, funcs[k].cells)
  }
}
