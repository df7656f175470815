/**
  What programs see of variables and closures, whatever the state they run in: a variable
  holds what was last stored in it, arguments arrive in their order, a closure sees the
  variables its captures name, and everyone who shares a variable sees every store to it.
 */
module ClosureLaws {
  import opened Wrappers
  import opened CellMachine
  import Resolution

  /** Two or three instructions one after another. */
  lemma RunOne(s: State, i: Instr)
    requires s.frames != [] && Proper(s, i)
    ensures ProperRun(s, [i]) && Run(s, [i]) == Step(s, i)
  {
    hide Step, Proper;
    if Step(s, i).Ran? {
      var t := Step(s, i).state;
      assert [i][1..] == [];
      assert ProperRun(t, []) && Run(t, []) == Ran(t);
    }
  }

  lemma RunMore(s: State, i: Instr, code: seq<Instr>)
    requires s.frames != [] && Proper(s, i) && (Step(s, i).Ran? ==> ProperRun(Step(s, i).state, code))
    ensures ProperRun(s, [i] + code)
    ensures Run(s, [i] + code) == if Step(s, i).Ran? then Run(Step(s, i).state, code) else Step(s, i)
  {
    hide Step, Proper;
    assert ([i] + code)[1..] == code;
  }

  /** The run goes well, unless it overruns, and what it looked at last, and has on top, is `v`. */
  predicate Shows(o: Outcome, v: Value) {
    o == Overrun || (o.Ran? && o.state.seen != [] && o.state.seen[|o.state.seen| - 1] == v && Top(o.state) == Some(v))
  }

  /** The place the next local takes in the running frame. */
  function Height(s: State): nat
    requires s.frames != [] && Current(s).base <= |s.slots|
  {
    |s.slots| - Current(s).base
  }

  /** Every value on the stack has a cell, and no two share one. */
  predicate Sound(s: State) {
    s.frames != [] && Current(s).base < |s.slots| &&
    (forall i :: 0 <= i < |s.slots| ==> s.slots[i] < |s.store|) &&
    (forall i, j :: 0 <= i < j < |s.slots| ==> s.slots[i] != s.slots[j]) &&
    forall f, k :: 0 <= f < |s.funcs| && 0 <= k < |s.funcs[f].cells| ==> s.funcs[f].cells[k] < |s.store|
  }

  /** A new local is found at its place. */
  lemma PushedIsSeen(s: State, v: Value)
    requires Sound(s)
    ensures ProperRun(s, [Push(v), GetLocal(Height(s))]) && Shows(Run(s, [Push(v), GetLocal(Height(s))]), v)
  {
    var o, k := Step(s, Push(v)), Height(s);
    if o.Ran? {
      RunOne(o.state, GetLocal(k));
    }
    RunMore(s, Push(v), [GetLocal(k)]);
    assert [Push(v)] + [GetLocal(k)] == [Push(v), GetLocal(k)];
  }

  /** What is on top. */
  function Upper(s: State): Value
    requires Sound(s)
  {
    s.store[s.slots[|s.slots| - 1]]
  }

  /** A local holds what was stored in it; every other variable holds what it held. */
  lemma StoredLocal(s: State, k: nat, j: nat)
    requires Sound(s) && k < Height(s) && j < Height(s) && j != k
    ensures ProperRun(s, [SetLocal(k), GetLocal(k)]) && Shows(Run(s, [SetLocal(k), GetLocal(k)]), Upper(s))
    ensures ProperRun(s, [SetLocal(k), GetLocal(j)]) && Shows(Run(s, [SetLocal(k), GetLocal(j)]), LocalValue(s, j))
    ensures ProperRun(s, [GetLocal(j)]) && Shows(Run(s, [GetLocal(j)]), LocalValue(s, j))
  {
    hide Step, Proper, Shows, ProperRun, Run;
    LocalSteps(s, k, j);
    TwoShow(s, SetLocal(k), GetLocal(k), Upper(s));
    TwoShow(s, SetLocal(k), GetLocal(j), LocalValue(s, j));
    RunOne(s, GetLocal(j));
  }

  lemma LocalSteps(s: State, k: nat, j: nat)
    requires Sound(s) && k < Height(s) && j < Height(s) && j != k
    ensures Proper(s, SetLocal(k)) && Step(s, SetLocal(k)).Ran?
    ensures var t := Step(s, SetLocal(k)).state;
      && t.frames != [] && Proper(t, GetLocal(k)) && Shows(Step(t, GetLocal(k)), Upper(s))
      && Proper(t, GetLocal(j)) && Shows(Step(t, GetLocal(j)), LocalValue(s, j))
    ensures Proper(s, GetLocal(j)) && Shows(Step(s, GetLocal(j)), LocalValue(s, j))
  {
    LocalSet(s, k);
    hide Step, Proper, Shows;
    var t := Step(s, SetLocal(k)).state;
    LocalStep(t, k);
    LocalStep(t, j);
    LocalStep(s, j);
  }

  lemma LocalSet(s: State, k: nat)
    requires Sound(s) && k < Height(s)
    ensures Proper(s, SetLocal(k)) && Step(s, SetLocal(k)).Ran?
    ensures var t, c := Step(s, SetLocal(k)).state, s.slots[Current(s).base + k];
      Sound(t) && t.slots == s.slots && t.frames == s.frames && t.store == s.store[c := Upper(s)]
  {
  }

  lemma TwoShow(s: State, i: Instr, j: Instr, v: Value)
    requires s.frames != [] && Proper(s, i) && Step(s, i).Ran?
    requires var t := Step(s, i).state; t.frames != [] && Proper(t, j) && Shows(Step(t, j), v)
    ensures ProperRun(s, [i, j]) && Shows(Run(s, [i, j]), v)
  {
    hide Step, Proper, Shows, ProperRun, Run;
    RunOne(Step(s, i).state, j);
    RunMore(s, i, [j]);
    assert [i] + [j] == [i, j];
  }

  function LocalValue(s: State, j: nat): Value
    requires Sound(s) && j < Height(s)
  {
    s.store[s.slots[Current(s).base + j]]
  }

  /** The closure that is running has an upvalue `k`. */
  predicate HasUpvalue(s: State, k: nat) {
    s.frames != [] && Current(s).closure < |s.funcs| && k < |s.funcs[Current(s).closure].cells|
  }

  function UpvalueValue(s: State, k: nat): Value
    requires Sound(s) && HasUpvalue(s, k)
  {
    s.store[s.funcs[Current(s).closure].cells[k]]
  }

  /** An upvalue holds what was stored in it; those of other variables hold what they held. */
  lemma StoredUpvalue(s: State, k: nat, j: nat)
    requires Sound(s) && HasUpvalue(s, k) && HasUpvalue(s, j)
    requires s.funcs[Current(s).closure].cells[j] != s.funcs[Current(s).closure].cells[k]
    ensures ProperRun(s, [SetUpvalue(k), GetUpvalue(k)]) && Shows(Run(s, [SetUpvalue(k), GetUpvalue(k)]), Upper(s))
    ensures ProperRun(s, [SetUpvalue(k), GetUpvalue(j)]) && Shows(Run(s, [SetUpvalue(k), GetUpvalue(j)]), UpvalueValue(s, j))
    ensures ProperRun(s, [GetUpvalue(j)]) && Shows(Run(s, [GetUpvalue(j)]), UpvalueValue(s, j))
  {
    hide Step, Proper, Shows, ProperRun, Run;
    UpvalueSteps(s, k, j);
    TwoShow(s, SetUpvalue(k), GetUpvalue(k), Upper(s));
    TwoShow(s, SetUpvalue(k), GetUpvalue(j), UpvalueValue(s, j));
    RunOne(s, GetUpvalue(j));
  }

  lemma UpvalueSteps(s: State, k: nat, j: nat)
    requires Sound(s) && HasUpvalue(s, k) && HasUpvalue(s, j)
    requires s.funcs[Current(s).closure].cells[j] != s.funcs[Current(s).closure].cells[k]
    ensures Proper(s, SetUpvalue(k)) && Step(s, SetUpvalue(k)).Ran?
    ensures var t := Step(s, SetUpvalue(k)).state;
      && t.frames != [] && Proper(t, GetUpvalue(k)) && Shows(Step(t, GetUpvalue(k)), Upper(s))
      && Proper(t, GetUpvalue(j)) && Shows(Step(t, GetUpvalue(j)), UpvalueValue(s, j))
    ensures Proper(s, GetUpvalue(j)) && Shows(Step(s, GetUpvalue(j)), UpvalueValue(s, j))
  {
    UpvalueSet(s, k);
    hide Step, Proper, Shows;
    var t := Step(s, SetUpvalue(k)).state;
    UpvalueStep(t, k);
    UpvalueStep(t, j);
    UpvalueStep(s, j);
  }

  lemma UpvalueSet(s: State, k: nat)
    requires Sound(s) && HasUpvalue(s, k)
    ensures Proper(s, SetUpvalue(k)) && Step(s, SetUpvalue(k)).Ran?
    ensures var t, c := Step(s, SetUpvalue(k)).state, s.funcs[Current(s).closure].cells[k];
      Sound(t) && t.slots == s.slots && t.frames == s.frames && t.funcs == s.funcs && t.store == s.store[c := Upper(s)]
  {
  }

  /* Calls. */

  function PushAll(vs: seq<Value>): seq<Instr> {
    if vs == [] then [] else [Push(vs[0])] + PushAll(vs[1..])
  }

  /** The state once all of them are pushed: new variables on top, and nothing else but room. */
  predicate PushedAll(s: State, t: State, vs: seq<Value>) {
    && |t.slots| == |s.slots| + |vs| && t.slots[..|s.slots|] == s.slots
    && (forall i :: |s.slots| <= i < |t.slots| ==> t.slots[i] == |s.store| + i - |s.slots|) && t.store == s.store + vs
    && t.frames == s.frames && t.funcs == s.funcs && t.seen == s.seen && t.captured == s.captured
  }

  lemma {:induction false} PushesRun(s: State, vs: seq<Value>, code: seq<Instr>)
    requires Sound(s)
    requires forall t :: Sound(t) && PushedAll(s, t, vs) ==> ProperRun(t, code)
    ensures ProperRun(s, PushAll(vs) + code)
    ensures Run(s, PushAll(vs) + code) == Overrun ||
      exists t :: Sound(t) && PushedAll(s, t, vs) && Run(s, PushAll(vs) + code) == Run(t, code)
    decreases |vs|
  {
    hide Step, Proper, ProperRun, Run;
    if vs == [] {
      assert PushAll(vs) + code == code;
      assert PushedAll(s, s, vs);
    } else {
      OnePush(s, vs[0]);
      var o := Step(s, Push(vs[0]));
      assert PushAll(vs) + code == [Push(vs[0])] + (PushAll(vs[1..]) + code);
      if o.Ran? {
        forall t | Sound(t) && PushedAll(o.state, t, vs[1..]) ensures PushedAll(s, t, vs) {
          PushedMore(s, o.state, t, vs);
        }
        PushesRun(o.state, vs[1..], code);
      }
      RunMore(s, Push(vs[0]), PushAll(vs[1..]) + code);
    }
  }

  lemma OnePush(s: State, v: Value)
    requires Sound(s)
    ensures Proper(s, Push(v)) && Step(s, Push(v)) != RuntimeError
    ensures Step(s, Push(v)).Ran? ==> Sound(Step(s, Push(v)).state) && PushedAll(s, Step(s, Push(v)).state, [v])
  {
  }

  lemma PushedMore(s: State, t: State, u: State, vs: seq<Value>)
    requires vs != [] && PushedAll(s, t, [vs[0]]) && PushedAll(t, u, vs[1..])
    ensures PushedAll(s, u, vs)
  {
    assert u.slots[..|s.slots|] == u.slots[..|t.slots|][..|s.slots|];
    forall i | |s.slots| <= i < |u.slots| ensures u.slots[i] == |s.store| + i - |s.slots| {
      if i == |s.slots| {
        assert u.slots[i] == u.slots[..|t.slots|][i];
      }
    }
    assert vs == [vs[0]] + vs[1..];
  }

  /** A closure of as many parameters, on the stack of a state that may have one more frame. */
  predicate Ready(s: State, id: nat) {
    id < |s.funcs| && |s.frames| != 128
  }

  function Calling(id: nat, args: seq<Value>, code: seq<Instr>): seq<Instr> {
    PushAll([Closure(id)] + args) + ([Call(|args|)] + code)
  }

  /** The callee is running: itself in place 0, its arguments behind it, and the variables there were as they were. */
  predicate Called(s: State, t: State, id: nat, args: seq<Value>) {
    Sound(t) && Height(t) == 1 + |args| && Current(t).closure == id && Current(t).base == |s.slots| && t.funcs == s.funcs &&
    LocalValue(t, 0) == Closure(id) && (forall i :: 0 <= i < |args| ==> LocalValue(t, i + 1) == args[i]) &&
    t.store == s.store + ([Closure(id)] + args) && t.seen == s.seen && t.frames[..|t.frames| - 1] == s.frames &&
    t.slots[..|s.slots|] == s.slots
  }

  /** A call runs the callee's code with its arguments in their order. */
  lemma CallRuns(s: State, id: nat, args: seq<Value>, code: seq<Instr>)
    requires Sound(s) && Ready(s, id) && s.funcs[id].arity == |args|
    requires forall t :: Called(s, t, id, args) ==> ProperRun(t, code)
    ensures ProperRun(s, Calling(id, args, code))
    ensures Run(s, Calling(id, args, code)) == Overrun ||
      exists t :: Called(s, t, id, args) && Run(s, Calling(id, args, code)) == Run(t, code)
  {
    hide Step, Proper, ProperRun, Run, Called, PushedAll;
    var vs := [Closure(id)] + args;
    forall t | Sound(t) && PushedAll(s, t, vs)
      ensures ProperRun(t, [Call(|args|)] + code)
      ensures var r := Run(t, [Call(|args|)] + code);
        r == Overrun || exists u :: Called(s, u, id, args) && r == Run(u, code)
    {
      CallStep(s, t, id, args);
      RunMore(t, Call(|args|), code);
    }
    PushesRun(s, vs, [Call(|args|)] + code);
  }

  lemma CallStep(s: State, t: State, id: nat, args: seq<Value>)
    requires Sound(s) && Ready(s, id) && s.funcs[id].arity == |args|
    requires Sound(t) && PushedAll(s, t, [Closure(id)] + args)
    ensures Proper(t, Call(|args|)) && Step(t, Call(|args|)) != RuntimeError
    ensures Step(t, Call(|args|)).Ran? ==> Called(s, Step(t, Call(|args|)).state, id, args)
  {
    hide Called, Entered;
    CallTaken(s, t, id, args);
    EnteredCalled(s, t, id, args);
    EnteredCalled(s, Grown(t).(depth := 2 * t.depth), id, args);
  }

  lemma CallTaken(s: State, t: State, id: nat, args: seq<Value>)
    requires Sound(s) && Ready(s, id) && s.funcs[id].arity == |args|
    requires PushedAll(s, t, [Closure(id)] + args)
    ensures Callable(t, |args|) && Load(t, t.slots[|t.slots| - |args| - 1]) == Closure(id)
  {
    var at := |t.slots| - |args| - 1;
    assert at == |s.slots| && t.slots[at] == |s.store| && t.store[|s.store|] == ([Closure(id)] + args)[0];
  }

  lemma EnteredCalled(s: State, t: State, id: nat, args: seq<Value>)
    requires Sound(s) && Sound(t) && Ready(s, id) && PushedAll(s, t, [Closure(id)] + args)
    ensures Called(s, Entered(t, |args|, id), id, args)
  {
    var u := Entered(t, |args|, id);
    EnteredSound(s, t, id, args);
    hide Sound;
    assert Current(u) == Frame(|s.slots|, id) && u.frames[..|u.frames| - 1] == s.frames;
    PushedValues(s, t, id, args);
  }

  lemma EnteredSound(s: State, t: State, id: nat, args: seq<Value>)
    requires Sound(t) && PushedAll(s, t, [Closure(id)] + args)
    ensures Sound(Entered(t, |args|, id))
  {
  }

  lemma PushedValues(s: State, t: State, id: nat, args: seq<Value>)
    requires PushedAll(s, t, [Closure(id)] + args)
    ensures t.store[|s.store|] == Closure(id) && forall i :: 0 <= i < |args| ==> t.store[|s.store| + i + 1] == args[i]
  {
    var vs := [Closure(id)] + args;
    assert t.store[|s.store|] == vs[0];
    forall i | 0 <= i < |args| ensures t.store[|s.store| + i + 1] == args[i] {
      assert t.store[|s.store| + i + 1] == vs[i + 1];
    }
  }

  /** Anything but a closure of as many parameters is not called, nor is anything in the 128th frame. */
  lemma CallRefused(s: State, c: Value, args: seq<Value>)
    requires Sound(s)
    requires |s.frames| == 128 || !c.Closure? || c.id >= |s.funcs| || s.funcs[c.id].arity != |args|
    ensures var code := PushAll([c] + args) + [Call(|args|)];
      ProperRun(s, code) && Run(s, code) in {RuntimeError, Overrun}
  {
    hide Step, Proper, ProperRun, Run, PushedAll;
    var vs := [c] + args;
    forall t | Sound(t) && PushedAll(s, t, vs) ensures ProperRun(t, [Call(|args|)]) && Run(t, [Call(|args|)]) == RuntimeError {
      CallFails(s, t, c, args);
      RunOne(t, Call(|args|));
    }
    PushesRun(s, vs, [Call(|args|)]);
  }

  lemma CallFails(s: State, t: State, c: Value, args: seq<Value>)
    requires Sound(s) && Sound(t) && PushedAll(s, t, [c] + args)
    requires |s.frames| == 128 || !c.Closure? || c.id >= |s.funcs| || s.funcs[c.id].arity != |args|
    ensures Proper(t, Call(|args|)) && Step(t, Call(|args|)) == RuntimeError
  {
    var at := |t.slots| - |args| - 1;
    assert at == |s.slots| && t.slots[at] == |s.store| && t.store[|s.store|] == ([c] + args)[0];
  }

  /** The arguments are the first locals of the callee, in their order, behind the callee itself. */
  lemma ArgumentsSeen(s: State, id: nat, args: seq<Value>, i: nat)
    requires Sound(s) && Ready(s, id) && s.funcs[id].arity == |args| && i <= |args|
    ensures var code := Calling(id, args, [GetLocal(i)]);
      ProperRun(s, code) && Shows(Run(s, code), if i == 0 then Closure(id) else args[i - 1])
  {
    hide Step, Proper, ProperRun, Run, Ready;
    var v := if i == 0 then Closure(id) else args[i - 1];
    forall t | Called(s, t, id, args)
      ensures ProperRun(t, [GetLocal(i)]) && Shows(Run(t, [GetLocal(i)]), v)
    {
      LocalStep(t, i);
      RunOne(t, GetLocal(i));
    }
    hide Called, Shows;
    CallRuns(s, id, args, [GetLocal(i)]);
    OverrunShows(v);
  }

  lemma OverrunShows(v: Value)
    ensures Shows(Overrun, v)
  {
  }

  lemma LocalStep(s: State, j: nat)
    requires Sound(s) && j < Height(s)
    ensures Proper(s, GetLocal(j)) && Shows(Step(s, GetLocal(j)), LocalValue(s, j))
  {
  }

  lemma UpvalueStep(s: State, k: nat)
    requires Sound(s) && HasUpvalue(s, k)
    ensures Proper(s, GetUpvalue(k)) && Shows(Step(s, GetUpvalue(k)), UpvalueValue(s, k))
  {
  }

  /** What a call yields stands where the call began, and is seen there. */
  lemma ResultSeen(s: State, id: nat, args: seq<Value>, v: Value)
    requires Sound(s) && Ready(s, id) && s.funcs[id].arity == |args|
    ensures var code := Calling(id, args, [Push(v), Return]);
      && ProperRun(s, code) && Shows(Run(s, code), v)
      && (Run(s, code).Ran? ==> var t := Run(s, code).state;
            t.frames == s.frames && |t.slots| == |s.slots| + 1 && t.slots[..|s.slots|] == s.slots)
  {
    hide Step, Proper, ProperRun, Run, Ready;
    forall t | Called(s, t, id, args)
      ensures ProperRun(t, [Push(v), Return]) && Back(s, Run(t, [Push(v), Return]), v)
    {
      ReturnSteps(s, t, id, args, v);
      if Step(t, Push(v)).Ran? {
        RunOne(Step(t, Push(v)).state, Return);
      }
      RunMore(t, Push(v), [Return]);
      assert [Push(v)] + [Return] == [Push(v), Return];
    }
    hide Called, Shows;
    CallRuns(s, id, args, [Push(v), Return]);
    OverrunShows(v);
  }

  predicate Back(s: State, o: Outcome, v: Value) {
    Shows(o, v) &&
    (o.Ran? ==> o.state.frames == s.frames && |o.state.slots| == |s.slots| + 1 && o.state.slots[..|s.slots|] == s.slots)
  }

  lemma ReturnSteps(s: State, t: State, id: nat, args: seq<Value>, v: Value)
    requires Sound(s) && Called(s, t, id, args)
    ensures Proper(t, Push(v)) && Step(t, Push(v)) != RuntimeError
    ensures var o := Step(t, Push(v));
      o.Ran? ==> o.state.frames != [] && Proper(o.state, Return) && Back(s, Step(o.state, Return), v)
  {
    var o := Step(t, Push(v));
    if o.Ran? {
      var u := Step(o.state, Return).state;
      assert u.slots[..|s.slots|] == o.state.slots[..|s.slots|] == t.slots[..|s.slots|];
    }
  }

  /* Closures. */

  /** The state once a closure has been made, in the frame that made it. */
  predicate Made(s: State, t: State, captures: seq<Capture>) {
    && Sound(t) && t.frames == s.frames && t.seen == s.seen && t.slots == s.slots + [|s.store|]
    && t.store == s.store + [Closure(|s.funcs|)] && |t.funcs| == |s.funcs| + 1 && t.funcs[..|s.funcs|] == s.funcs
    && |t.funcs[|s.funcs|].cells| == |captures| && forall k :: 0 <= k < |captures| ==> Linked(t, t.funcs[|s.funcs|].cells[k], captures[k])
  }

  /** The variable a capture names in the running frame has this cell. */
  predicate Linked(s: State, cell: nat, c: Capture) {
    s.frames != [] &&
    if c.isLocal then Current(s).base + c.index < |s.slots| && cell == s.slots[Current(s).base + c.index]
    else HasUpvalue(s, c.index) && cell == s.funcs[Current(s).closure].cells[c.index]
  }

  lemma MakeStep(s: State, arity: nat, captures: seq<Capture>)
    requires Sound(s) && Proper(s, MakeClosure(arity, captures)) && Current(s).closure < |s.funcs|
    ensures Step(s, MakeClosure(arity, captures)) != RuntimeError
    ensures var o := Step(s, MakeClosure(arity, captures));
      o.Ran? ==> Made(s, o.state, captures) && o.state.funcs[|s.funcs|].arity == arity
  {
    hide Cells, Locals;
    var o := Step(s, MakeClosure(arity, captures));
    if o.Ran? {
      var p, t := Pushed(s, Closure(|s.funcs|)), o.state;
      if captures != [] {
        Resolution.CellsAt(p, captures, 0);
      } else {
        NoCells(p);
      }
      forall k | 0 <= k < |captures|
        ensures Linked(t, t.funcs[|s.funcs|].cells[k], captures[k]) && t.funcs[|s.funcs|].cells[k] < |t.store|
      {
        Resolution.CellsAt(p, captures, k);
        assert CaptureFits(p, captures[k]);
      }
    }
  }

  lemma NoCells(s: State)
    ensures CapturesFit(s, []) && Cells(s, []) == []
  {
  }

  lemma {:induction false} RunAppend(s: State, a: seq<Instr>, b: seq<Instr>)
    requires ProperRun(s, a) && (Run(s, a).Ran? ==> ProperRun(Run(s, a).state, b))
    ensures ProperRun(s, a + b) && Run(s, a + b) == if Run(s, a).Ran? then Run(Run(s, a).state, b) else Run(s, a)
    decreases |a|
  {
    hide Step, Proper;
    if a == [] {
      assert a + b == b;
    } else if s.frames == [] {
    } else {
      assert (a + b)[0] == a[0] && (a + b)[1..] == a[1..] + b;
      if Step(s, a[0]).Ran? {
        RunAppend(Step(s, a[0]).state, a[1..], b);
      }
    }
  }

  /** Reading and storing to the variable a capture names. */
  function GetOf(c: Capture): Instr {
    if c.isLocal then GetLocal(c.index) else GetUpvalue(c.index)
  }

  function SetOf(c: Capture): Instr {
    if c.isLocal then SetLocal(c.index) else SetUpvalue(c.index)
  }

  lemma GetShows(s: State, c: Capture, cell: nat)
    requires Sound(s) && Linked(s, cell, c)
    ensures cell < |s.store| && Proper(s, GetOf(c)) && Shows(Step(s, GetOf(c)), s.store[cell])
  {
    if c.isLocal {
      LocalStep(s, c.index);
    } else {
      UpvalueStep(s, c.index);
    }
  }

  lemma SetStores(s: State, c: Capture, cell: nat)
    requires Sound(s) && Linked(s, cell, c)
    ensures cell < |s.store| && Proper(s, SetOf(c)) && Step(s, SetOf(c)) == Ran(s.(store := s.store[cell := Upper(s)]))
  {
  }

  /** A closure on hand whose upvalue `k` has this cell. */
  predicate Holds(s: State, id: nat, arity: nat, k: nat, cell: nat) {
    Ready(s, id) && s.funcs[id].arity == arity && k < |s.funcs[id].cells| && s.funcs[id].cells[k] == cell
  }

  lemma CallSees(s: State, id: nat, args: seq<Value>, k: nat, cell: nat)
    requires Sound(s) && Holds(s, id, |args|, k, cell)
    ensures var code := Calling(id, args, [GetUpvalue(k)]);
      cell < |s.store| && ProperRun(s, code) && Shows(Run(s, code), s.store[cell])
  {
    hide Step, Proper, ProperRun, Run;
    forall t | Called(s, t, id, args)
      ensures ProperRun(t, [GetUpvalue(k)]) && Shows(Run(t, [GetUpvalue(k)]), s.store[cell])
    {
      UpvalueStep(t, k);
      RunOne(t, GetUpvalue(k));
      assert UpvalueValue(t, k) == s.store[cell];
    }
    hide Called, Shows;
    CallRuns(s, id, args, [GetUpvalue(k)]);
    OverrunShows(s.store[cell]);
  }

  /** A store by a callee: the caller goes on where it was, with one value more and the variable changed. */
  predicate Changed(s: State, o: Outcome, cell: nat, v: Value) {
    o == Overrun ||
    (o.Ran? && Sound(o.state) && o.state.frames == s.frames && o.state.funcs == s.funcs &&
     |o.state.slots| == |s.slots| + 1 && o.state.slots[..|s.slots|] == s.slots && cell < |o.state.store| && o.state.store[cell] == v)
  }

  lemma CallStores(s: State, id: nat, args: seq<Value>, k: nat, cell: nat, v: Value)
    requires Sound(s) && Holds(s, id, |args|, k, cell)
    ensures var code := Calling(id, args, [Push(v), SetUpvalue(k), Return]);
      ProperRun(s, code) && Changed(s, Run(s, code), cell, v)
  {
    hide Step, Proper, ProperRun, Run;
    var code := [Push(v), SetUpvalue(k), Return];
    forall t | Called(s, t, id, args)
      ensures ProperRun(t, code) && Changed(s, Run(t, code), cell, v)
    {
      StoreSteps(s, t, id, args, k, cell, v);
    }
    hide Called, Changed;
    CallRuns(s, id, args, code);
    OverrunChanged(s, cell, v);
  }

  lemma OverrunChanged(s: State, cell: nat, v: Value)
    ensures Changed(s, Overrun, cell, v)
  {
  }

  lemma StoreSteps(s: State, t: State, id: nat, args: seq<Value>, k: nat, cell: nat, v: Value)
    requires Sound(s) && Holds(s, id, |args|, k, cell) && Called(s, t, id, args)
    ensures var code := [Push(v), SetUpvalue(k), Return]; ProperRun(t, code) && Changed(s, Run(t, code), cell, v)
  {
    hide Step, Proper, ProperRun, Run, Changed, Called;
    PushIn(s, t, id, args, k, cell, v);
    var o := Step(t, Push(v));
    if o.Ran? {
      StoreAndReturn(s, o.state, k, cell, v);
      RunOne(Step(o.state, SetUpvalue(k)).state, Return);
      RunMore(o.state, SetUpvalue(k), [Return]);
      assert [SetUpvalue(k)] + [Return] == [SetUpvalue(k), Return];
    }
    OverrunChanged(s, cell, v);
    RunMore(t, Push(v), [SetUpvalue(k), Return]);
    assert [Push(v)] + [SetUpvalue(k), Return] == [Push(v), SetUpvalue(k), Return];
  }

  /** The callee has pushed what it is about to store. */
  predicate Storing(s: State, t: State, k: nat, cell: nat, v: Value) {
    Sound(t) && HasUpvalue(t, k) && t.funcs[Current(t).closure].cells[k] == cell && Upper(t) == v && t.funcs == s.funcs &&
    Current(t).base == |s.slots| && t.frames[..|t.frames| - 1] == s.frames && Height(t) >= 2 && t.slots[..|s.slots|] == s.slots &&
    |s.store| <= |t.store|
  }

  lemma PushIn(s: State, t: State, id: nat, args: seq<Value>, k: nat, cell: nat, v: Value)
    requires Sound(s) && Holds(s, id, |args|, k, cell) && Called(s, t, id, args)
    ensures t.frames != [] && Proper(t, Push(v)) && Step(t, Push(v)) != RuntimeError
    ensures Step(t, Push(v)).Ran? ==> Storing(s, Step(t, Push(v)).state, k, cell, v)
  {
    var o := Step(t, Push(v));
    if o.Ran? {
      assert o.state.slots[..|s.slots|] == t.slots[..|s.slots|];
    }
  }

  lemma StoreAndReturn(s: State, t: State, k: nat, cell: nat, v: Value)
    requires Sound(s) && Storing(s, t, k, cell, v)
    ensures t.frames != [] && Proper(t, SetUpvalue(k)) && Step(t, SetUpvalue(k)).Ran?
    ensures var u := Step(t, SetUpvalue(k)).state; u.frames != [] && Proper(u, Return) && Changed(s, Step(u, Return), cell, v)
  {
    SetStores(t, Capture(false, k), cell);
    var u := Step(t, SetUpvalue(k)).state;
    assert u == t.(store := t.store[cell := v]);
    Returned(s, u);
  }

  lemma Returned(s: State, u: State)
    requires Sound(s) && Sound(u) && Current(u).base == |s.slots| && u.frames[..|u.frames| - 1] == s.frames && Height(u) >= 2
    requires u.slots[..|s.slots|] == s.slots && u.funcs == s.funcs
    ensures Proper(u, Return) && Step(u, Return).Ran?
    ensures var t := Step(u, Return).state;
      Sound(t) && t.frames == s.frames && t.funcs == s.funcs && |t.slots| == |s.slots| + 1 && t.slots[..|s.slots|] == s.slots &&
      |u.store| <= |t.store| && t.store[..|u.store|] == u.store
  {
  }

  /** The capture names a variable that is there once the closure is on the stack. */
  predicate Names(s: State, c: Capture) {
    Sound(s) && if c.isLocal then c.index < Height(s) else HasUpvalue(s, c.index)
  }

  function Named(s: State, c: Capture): Value
    requires Names(s, c)
  {
    if c.isLocal then LocalValue(s, c.index) else UpvalueValue(s, c.index)
  }

  /** A closure that is made and called sees, as its upvalue `k`, the variable its capture `k` names. */
  lemma CapturesSeen(s: State, captures: seq<Capture>, args: seq<Value>, k: nat)
    requires Makes(s, |args|, captures) && k < |captures| && Names(s, captures[k])
    ensures var code := [MakeClosure(|args|, captures)] + Calling(|s.funcs|, args, [GetUpvalue(k)]);
      ProperRun(s, code) && Shows(Run(s, code), Named(s, captures[k]))
  {
    hide Step, Proper, ProperRun, Run, Shows, Made;
    var i, v := MakeClosure(|args|, captures), Named(s, captures[k]);
    MakeStep(s, |args|, captures);
    var o := Step(s, i);
    if o.Ran? {
      var cell := MadeHolds(s, o.state, captures, |args|, k);
      CallSees(o.state, |s.funcs|, args, k, cell);
    }
    RunMore(s, i, Calling(|s.funcs|, args, [GetUpvalue(k)]));
    OverrunShows(v);
  }

  /** A closure can be made, and there may be a frame more. */
  predicate Makes(s: State, arity: nat, captures: seq<Capture>) {
    Sound(s) && Proper(s, MakeClosure(arity, captures)) && Current(s).closure < |s.funcs| && |s.frames| != 128
  }

  lemma MadeHolds(s: State, t: State, captures: seq<Capture>, arity: nat, k: nat) returns (cell: nat)
    requires Made(s, t, captures) && t.funcs[|s.funcs|].arity == arity && |s.frames| != 128 && k < |captures|
    requires Names(s, captures[k]) && Current(s).closure < |s.funcs|
    ensures Sound(t) && Holds(t, |s.funcs|, arity, k, cell) && Linked(t, cell, captures[k]) && cell < |t.store|
    ensures t.store[cell] == Named(s, captures[k])
  {
    cell := t.funcs[|s.funcs|].cells[k];
    assert Linked(t, cell, captures[k]);
    assert t.funcs[Current(s).closure] == t.funcs[..|s.funcs|][Current(s).closure];
  }

  /** What the closure stores, the maker sees under the name it captured it by. */
  lemma StoreSeenOutside(s: State, captures: seq<Capture>, args: seq<Value>, k: nat, v: Value)
    requires Makes(s, |args|, captures) && k < |captures| && Names(s, captures[k])
    ensures var code := [MakeClosure(|args|, captures)] + (Calling(|s.funcs|, args, [Push(v), SetUpvalue(k), Return]) + [GetOf(captures[k])]);
      ProperRun(s, code) && Shows(Run(s, code), v)
  {
    hide Step, Proper, ProperRun, Run, Shows, Made, Changed, Linked, Holds;
    var i, call := MakeClosure(|args|, captures), Calling(|s.funcs|, args, [Push(v), SetUpvalue(k), Return]);
    MakeStep(s, |args|, captures);
    var o := Step(s, i);
    if o.Ran? {
      var cell := MadeHolds(s, o.state, captures, |args|, k);
      CallStores(o.state, |s.funcs|, args, k, cell, v);
      ThenSeen(o.state, call, captures[k], cell, v);
    }
    RunMore(s, i, call + [GetOf(captures[k])]);
    OverrunShows(v);
  }

  lemma ThenSeen(s: State, code: seq<Instr>, c: Capture, cell: nat, v: Value)
    requires Sound(s) && Linked(s, cell, c) && ProperRun(s, code) && Changed(s, Run(s, code), cell, v)
    ensures ProperRun(s, code + [GetOf(c)]) && Shows(Run(s, code + [GetOf(c)]), v)
  {
    hide Step, Proper, ProperRun, Run;
    var r := Run(s, code);
    if r.Ran? {
      StillLinked(s, r.state, cell, c);
      GetShows(r.state, c, cell);
      RunOne(r.state, GetOf(c));
    }
    RunAppend(s, code, [GetOf(c)]);
  }

  lemma StillLinked(s: State, t: State, cell: nat, c: Capture)
    requires Linked(s, cell, c) && t.frames == s.frames && t.funcs == s.funcs && |s.slots| <= |t.slots| && t.slots[..|s.slots|] == s.slots
    ensures Linked(t, cell, c)
  {
    if c.isLocal {
      var at := Current(s).base + c.index;
      assert t.slots[..|s.slots|][at] == s.slots[at];
    }
  }

  /** What the maker stores, the closure sees. */
  lemma StoreSeenInside(s: State, captures: seq<Capture>, args: seq<Value>, k: nat, v: Value)
    requires Makes(s, |args|, captures) && k < |captures| && Names(s, captures[k])
    ensures var code := [MakeClosure(|args|, captures)] + ([Push(v), SetOf(captures[k])] + Calling(|s.funcs|, args, [GetUpvalue(k)]));
      ProperRun(s, code) && Shows(Run(s, code), v)
  {
    hide Step, Proper, ProperRun, Run, Shows, Made, Linked, Holds;
    var i, call := MakeClosure(|args|, captures), Calling(|s.funcs|, args, [GetUpvalue(k)]);
    MakeStep(s, |args|, captures);
    var o := Step(s, i);
    if o.Ran? {
      var cell := MadeHolds(s, o.state, captures, |args|, k);
      SetThenCall(o.state, captures[k], |s.funcs|, args, k, cell, v);
    }
    RunMore(s, i, [Push(v), SetOf(captures[k])] + call);
    OverrunShows(v);
  }

  lemma SetThenCall(s: State, c: Capture, id: nat, args: seq<Value>, k: nat, cell: nat, v: Value)
    requires Sound(s) && Linked(s, cell, c) && Holds(s, id, |args|, k, cell)
    ensures var code := [Push(v), SetOf(c)] + Calling(id, args, [GetUpvalue(k)]);
      ProperRun(s, code) && Shows(Run(s, code), v)
  {
    hide Step, Proper, ProperRun, Run, Shows, Linked, Holds;
    var call := Calling(id, args, [GetUpvalue(k)]);
    PushLinked(s, c, id, |args|, k, cell, v);
    var o := Step(s, Push(v));
    if o.Ran? {
      SetHolds(o.state, c, id, |args|, k, cell, v);
      CallSees(Step(o.state, SetOf(c)).state, id, args, k, cell);
      RunMore(o.state, SetOf(c), call);
    }
    RunMore(s, Push(v), [SetOf(c)] + call);
    assert [Push(v)] + ([SetOf(c)] + call) == [Push(v), SetOf(c)] + call;
    OverrunShows(v);
  }

  lemma PushLinked(s: State, c: Capture, id: nat, arity: nat, k: nat, cell: nat, v: Value)
    requires Sound(s) && Linked(s, cell, c) && Holds(s, id, arity, k, cell)
    ensures Proper(s, Push(v)) && Step(s, Push(v)) != RuntimeError
    ensures var o := Step(s, Push(v));
      o.Ran? ==> Sound(o.state) && Linked(o.state, cell, c) && Holds(o.state, id, arity, k, cell) && Upper(o.state) == v
  {
  }

  lemma SetHolds(s: State, c: Capture, id: nat, arity: nat, k: nat, cell: nat, v: Value)
    requires Sound(s) && Linked(s, cell, c) && Holds(s, id, arity, k, cell) && Upper(s) == v
    ensures Proper(s, SetOf(c)) && Step(s, SetOf(c)).Ran?
    ensures var t := Step(s, SetOf(c)).state;
      Sound(t) && t.frames != [] && Holds(t, id, arity, k, cell) && cell < |t.store| && t.store[cell] == v
  {
    SetStores(s, c, cell);
  }

  /** Two closures that captured the same variable see each other's stores. */
  lemma StoreSeenBySibling(s: State, id1: nat, args1: seq<Value>, k1: nat, id2: nat, args2: seq<Value>, k2: nat, cell: nat, v: Value)
    requires Sound(s) && Holds(s, id1, |args1|, k1, cell) && Holds(s, id2, |args2|, k2, cell)
    ensures var code := Calling(id1, args1, [Push(v), SetUpvalue(k1), Return]) + Calling(id2, args2, [GetUpvalue(k2)]);
      ProperRun(s, code) && Shows(Run(s, code), v)
  {
    hide Step, Proper, ProperRun, Run, Shows;
    var first, second := Calling(id1, args1, [Push(v), SetUpvalue(k1), Return]), Calling(id2, args2, [GetUpvalue(k2)]);
    CallStores(s, id1, args1, k1, cell, v);
    var r := Run(s, first);
    if r.Ran? {
      CallSees(r.state, id2, args2, k2, cell);
    }
    RunAppend(s, first, second);
    OverrunShows(v);
  }

  /** A scope that ends takes one local off the stack, and changes no variable. */
  lemma ScopeEnds(s: State, i: Instr)
    requires Sound(s) && (i == Pop || i == CloseUpvalue) && Proper(s, i)
    ensures Step(s, i).Ran?
    ensures var t := Step(s, i).state;
      Sound(t) && t.slots == s.slots[..|s.slots| - 1] && t.store == s.store && t.frames == s.frames && t.funcs == s.funcs && t.seen == s.seen
  {
  }

  /** A captured variable outlives the scope it was declared in. */
  lemma OutlivesScope(s: State, i: Instr, id: nat, args: seq<Value>, k: nat, cell: nat)
    requires Sound(s) && (i == Pop || i == CloseUpvalue) && Proper(s, i) && Holds(s, id, |args|, k, cell)
    ensures var code := [i] + Calling(id, args, [GetUpvalue(k)]);
      cell < |s.store| && ProperRun(s, code) && Shows(Run(s, code), s.store[cell])
  {
    hide Step, Proper, ProperRun, Run, Shows;
    ScopeEnds(s, i);
    CallSees(Step(s, i).state, id, args, k, cell);
    RunMore(s, i, Calling(id, args, [GetUpvalue(k)]));
  }
}
