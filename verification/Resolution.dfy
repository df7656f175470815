/**
  How the compiler finds the variable a name in a nested function stands for,
  src/jml_compiler.c: the chain of functions being compiled is searched outwards, and every
  function on the way gets an upvalue that refers to a local or an upvalue of the next. The
  local found is marked, and by its mark leaves the stack in the right way.
 */
module Resolution {
  import opened Wrappers
  import CellMachine

  const LOCAL_MAX: nat := 256

  /** A local with its scope; the depth is -1 while its initializer is compiled. */
  datatype Local = Local(name: seq<int>, depth: int, captured: bool)

  datatype Upvalue = Upvalue(isLocal: bool, index: nat)

  /** One function being compiled, with its locals and upvalues. */
  datatype Level = Level(locals: seq<Local>, upvalues: seq<Upvalue>)

  /** The last local of a name. */
  function LocalIndex(locals: seq<Local>, name: seq<int>): (r: Option<nat>)
    ensures r.Some? ==> r.value < |locals| && locals[r.value].name == name
    ensures r.Some? ==> forall i :: r.value < i < |locals| ==> locals[i].name != name
    ensures r == None ==> forall i :: 0 <= i < |locals| ==> locals[i].name != name
  {
    if locals == [] then None
    else if locals[|locals| - 1].name == name then Some(|locals| - 1)
    else LocalIndex(locals[..|locals| - 1], name)
  }

  /** A variable: the level of its function and its slot there. */
  datatype Variable = Variable(level: nat, slot: nat)

  /** The nearest binding of a name in the functions around level `l`. */
  function Nearest(levels: seq<Level>, l: nat, name: seq<int>): (r: Option<Variable>)
    requires l <= |levels|
    ensures r.Some? ==> r.value.level < l && r.value.slot < |levels[r.value.level].locals|
  {
    if l == 0 then None
    else
      var i := LocalIndex(levels[l - 1].locals, name);
      if i.Some? then Some(Variable(l - 1, i.value)) else Nearest(levels, l - 1, name)
  }

  /** Upvalues refer to what is there, none twice, and fit a byte. */
  predicate LevelOk(levels: seq<Level>, l: nat)
    requires l < |levels|
  {
    |levels[l].locals| <= LOCAL_MAX && |levels[l].upvalues| <= LOCAL_MAX &&
    (if l == 0 then levels[l].upvalues == [] else AllRefer(levels[l].upvalues, levels[l - 1])) &&
    Unrepeated(levels[l].upvalues)
  }

  predicate AllRefer(upvalues: seq<Upvalue>, around: Level) {
    forall u :: 0 <= u < |upvalues| ==> Refers(upvalues[u], around)
  }

  predicate Unrepeated(upvalues: seq<Upvalue>) {
    forall u, w :: 0 <= u < w < |upvalues| ==> upvalues[u] != upvalues[w]
  }

  /** There is something in the next level that an upvalue refers to. */
  predicate Refers(v: Upvalue, around: Level) {
    v.index < if v.isLocal then |around.locals| else |around.upvalues|
  }

  predicate Ok(levels: seq<Level>) {
    forall l :: 0 <= l < |levels| ==> LevelOk(levels, l)
  }

  /** The variable an upvalue stands for. */
  function Denote(levels: seq<Level>, l: nat, u: nat): Variable
    requires Ok(levels) && l < |levels| && u < |levels[l].upvalues|
    decreases l
  {
    assert LevelOk(levels, l);
    var v := levels[l].upvalues[u];
    if v.isLocal then Variable(l - 1, v.index) else Denote(levels, l - 1, v.index)
  }

  /** More upvalues and captured marks, nothing else: what was there stays where it is. */
  ghost predicate Grown(levels: seq<Level>, more: seq<Level>) {
    |more| == |levels| &&
    forall l :: 0 <= l < |levels| ==>
      levels[l].upvalues <= more[l].upvalues && |more[l].locals| == |levels[l].locals| &&
      forall i :: 0 <= i < |levels[l].locals| ==>
        more[l].locals[i].name == levels[l].locals[i].name && more[l].locals[i].depth == levels[l].locals[i].depth &&
        (levels[l].locals[i].captured ==> more[l].locals[i].captured)
  }

  /** What an upvalue stands for does not change as others are added. */
  lemma {:induction false} DenoteGrown(levels: seq<Level>, more: seq<Level>, l: nat, u: nat)
    requires Ok(levels) && Ok(more) && Grown(levels, more) && l < |levels| && u < |levels[l].upvalues|
    ensures u < |more[l].upvalues| && Denote(more, l, u) == Denote(levels, l, u)
    decreases l
  {
    assert LevelOk(levels, l) && LevelOk(more, l);
    assert more[l].upvalues[u] == levels[l].upvalues[u];
    if !levels[l].upvalues[u].isLocal {
      DenoteGrown(levels, more, l - 1, levels[l].upvalues[u].index);
    }
  }

  lemma {:induction false} LocalIndexGrown(locals: seq<Local>, more: seq<Local>, name: seq<int>)
    requires |more| == |locals| && forall i :: 0 <= i < |locals| ==> more[i].name == locals[i].name
    ensures LocalIndex(more, name) == LocalIndex(locals, name)
  {
    if locals != [] {
      LocalIndexGrown(locals[..|locals| - 1], more[..|locals| - 1], name);
    }
  }

  lemma GrownTwice(a: seq<Level>, b: seq<Level>, c: seq<Level>)
    requires Grown(a, b) && Grown(b, c)
    ensures Grown(a, c)
  {
  }

  /** A local that an upvalue of the next function refers to is marked as captured. */
  predicate Flagged(levels: seq<Level>)
    requires Ok(levels)
  {
    forall l, u :: 0 < l < |levels| && 0 <= u < |levels[l].upvalues| ==> FlaggedAt(levels, l, u)
  }

  predicate FlaggedAt(levels: seq<Level>, l: nat, u: nat)
    requires Ok(levels) && 0 < l < |levels| && u < |levels[l].upvalues|
  {
    assert LevelOk(levels, l);
    var v := levels[l].upvalues[u];
    v.isLocal ==> levels[l - 1].locals[v.index].captured
  }

  /** Marks stay, so only a new upvalue can refer to a local without one. */
  lemma FlaggedGrown(levels: seq<Level>, more: seq<Level>)
    requires Ok(levels) && Ok(more) && Grown(levels, more) && Flagged(levels)
    requires forall l, u :: 0 < l < |more| && |levels[l].upvalues| <= u < |more[l].upvalues| ==> FlaggedAt(more, l, u)
    ensures Flagged(more)
  {
    forall l, u | 0 < l < |more| && 0 <= u < |more[l].upvalues| ensures FlaggedAt(more, l, u) {
      if u < |levels[l].upvalues| {
        assert FlaggedAt(levels, l, u) && LevelOk(levels, l);
        assert more[l].upvalues[u] == levels[l].upvalues[u];
      }
    }
  }

  /** The locals that stay when the scopes deeper than `depth` end. */
  function Staying(locals: seq<Local>, depth: int): (r: seq<Local>)
    ensures r <= locals
  {
    if locals == [] || locals[|locals| - 1].depth <= depth then locals
    else Staying(locals[..|locals| - 1], depth)
  }

  function EndInstr(l: Local): CellMachine.Instr {
    if l.captured then CellMachine.CloseUpvalue else CellMachine.Pop
  }

  /** What is emitted for those that go, the last one first. */
  function EndCode(locals: seq<Local>, depth: int): seq<CellMachine.Instr> {
    if locals == [] || locals[|locals| - 1].depth <= depth then []
    else
      [EndInstr(locals[|locals| - 1])] + EndCode(locals[..|locals| - 1], depth)
  }

  /** The chain of functions being compiled, the outermost first. */
  class Chain {
    var levels: seq<Level>
    var wError: bool

    constructor (levels: seq<Level>)
      ensures this.levels == levels && !wError
    {
      this.levels := levels;
      wError := false;
    }

    /** `jml_local_resolve`; an error, but still an answer, inside the initializer of the variable. */
    method LocalResolve(l: nat, name: seq<int>) returns (r: Option<nat>)
      requires l < |levels|
      modifies `wError
      ensures r == LocalIndex(levels[l].locals, name)
      ensures wError == (old(wError) || (r.Some? && levels[l].locals[r.value].depth == -1))
    {
      var locals := levels[l].locals;
      var i := |locals|;
      assert locals[..i] == locals;
      while i > 0
        invariant 0 <= i <= |locals| && LocalIndex(locals, name) == LocalIndex(locals[..i], name)
        invariant wError == old(wError)
      {
        i := i - 1;
        assert locals[..i + 1][..i] == locals[..i];
        if locals[i].name == name {
          if locals[i].depth == -1 {
            wError := true;
          }
          return Some(i);
        }
      }
      return None;
    }

    /** `jml_upvalue_add`: the place of an upvalue, new or not; an error when there is no room for it. */
    method UpvalueAdd(l: nat, index: nat, isLocal: bool) returns (r: nat)
      requires Ok(levels) && 0 < l < |levels|
      requires index < if isLocal then |levels[l - 1].locals| else |levels[l - 1].upvalues|
      modifies this
      ensures Ok(levels) && Grown(old(levels), levels)
      ensures forall k :: 0 <= k < |levels| && k != l ==> levels[k] == old(levels)[k]
      ensures levels[l].locals == old(levels)[l].locals
      ensures wError == (old(wError) || (Upvalue(isLocal, index) !in old(levels)[l].upvalues && |old(levels)[l].upvalues| == LOCAL_MAX))
      ensures r < |levels[l].upvalues| <= LOCAL_MAX && (!wError ==> levels[l].upvalues[r] == Upvalue(isLocal, index))
      ensures Upvalue(isLocal, index) in old(levels)[l].upvalues || |old(levels)[l].upvalues| == LOCAL_MAX ==> levels == old(levels)
      ensures |levels[l].upvalues| <= |old(levels)[l].upvalues| + 1
      ensures Flagged(old(levels)) && (isLocal ==> old(levels)[l - 1].locals[index].captured) ==> Flagged(levels)
    {
      assert LevelOk(levels, l);
      var upvalues := levels[l].upvalues;
      var i := 0;
      while i < |upvalues|
        invariant 0 <= i <= |upvalues| && levels == old(levels) && wError == old(wError)
        invariant forall k :: 0 <= k < i ==> upvalues[k] != Upvalue(isLocal, index)
      {
        if upvalues[i].index == index && upvalues[i].isLocal == isLocal {
          return i;
        }
        i := i + 1;
      }
      if |upvalues| == LOCAL_MAX {
        wError := true;
        return 0;
      }
      OneMore(levels, l, Upvalue(isLocal, index));
      MoreFlagged(levels, l, Upvalue(isLocal, index));
      levels := levels[l := levels[l].(upvalues := upvalues + [Upvalue(isLocal, index)])];
      return |upvalues|;
    }

    /** The branch of `jml_upvalue_resolve` for a local of the next function. */
    method BindLocal(l: nat, slot: nat) returns (r: nat)
      requires Ok(levels) && 0 < l < |levels| && slot < |levels[l - 1].locals|
      modifies this
      ensures Ok(levels) && Grown(old(levels), levels) && forall k :: l < k < |levels| ==> levels[k] == old(levels)[k]
      ensures r < |levels[l].upvalues| <= LOCAL_MAX
      ensures !wError ==> Denote(levels, l, r) == Variable(l - 1, slot) && levels[l - 1].locals[slot].captured
      ensures !old(wError) && |old(levels)[l].upvalues| < LOCAL_MAX ==> !wError
      ensures forall k :: 0 <= k < |levels| ==> |levels[k].upvalues| <= |old(levels)[k].upvalues| + 1
      ensures old(wError) ==> wError
      ensures Flagged(old(levels)) ==> Flagged(levels)
    {
      ghost var was := levels;
      Captured(levels, l - 1, slot);
      levels := levels[l - 1 := levels[l - 1].(locals :=
        levels[l - 1].locals[slot := levels[l - 1].locals[slot].(captured := true)])];
      ghost var marked := levels;
      if Flagged(was) {
        FlaggedGrown(was, marked);
      }
      r := UpvalueAdd(l, slot, true);
      GrownTwice(was, marked, levels);
    }

    /**
      `jml_upvalue_resolve`: -1 exactly when no function around binds the name; else, unless
      an error is reported, an upvalue that stands for the nearest binding, which is marked
      as captured. Upvalues there were keep their places.
     */
    method UpvalueResolve(l: nat, name: seq<int>) returns (r: int)
      requires Ok(levels) && l < |levels|
      modifies this
      ensures Ok(levels) && Grown(old(levels), levels) && forall k :: l < k < |levels| ==> levels[k] == old(levels)[k]
      ensures r == -1 <==> Nearest(old(levels), l, name) == None
      ensures -1 <= r < |levels[l].upvalues| <= LOCAL_MAX
      ensures r == -1 ==> levels == old(levels)
      ensures !wError && r >= 0 ==>
        var v := Nearest(old(levels), l, name).value;
        Denote(levels, l, r) == v && levels[v.level].locals[v.slot].captured && levels[v.level].locals[v.slot].depth != -1
      ensures !old(wError) && Roomy(old(levels), l) && Settled(old(levels), l, name) ==> !wError
      ensures forall k :: 0 <= k < |levels| ==> |levels[k].upvalues| <= |old(levels)[k].upvalues| + 1
      ensures Flagged(old(levels)) ==> Flagged(levels)
      decreases l
    {
      hide Flagged;
      assert LevelOk(levels, l);
      if l == 0 {
        return -1;
      }
      assert LevelOk(levels, l - 1);
      ghost var was := levels;
      var local := LocalResolve(l - 1, name);
      if local != None {
        r := BindLocal(l, local.value);
        return;
      }
      var upvalue := UpvalueResolve(l - 1, name);
      if upvalue != -1 {
        ghost var inner := levels;
        r := UpvalueAdd(l, upvalue, false);
        GrownTwice(was, inner, levels);
        DenoteGrown(inner, levels, l - 1, upvalue);
        return;
      }
      return -1;
    }

    /** `jml_scope_end` of the innermost function: its deeper locals go, the captured ones by OP_CLOSE_UPVALUE. */
    method ScopeEnd(depth: nat) returns (code: seq<CellMachine.Instr>)
      requires levels != []
      modifies `levels
      ensures |levels| == |old(levels)|
      ensures var l := |levels| - 1; var was := old(levels)[l];
        && levels == old(levels)[l := was.(locals := Staying(was.locals, depth))]
        && code == EndCode(was.locals, depth)
    {
      hide EndCode, Staying;
      var l := |levels| - 1;
      code := [];
      ghost var first, was := levels, levels[l].locals;
      while |levels[l].locals| > 0 && levels[l].locals[|levels[l].locals| - 1].depth > depth
        invariant |levels| == l + 1 && levels == first[l := first[l].(locals := levels[l].locals)]
        invariant Staying(was, depth) == Staying(levels[l].locals, depth)
        invariant code + EndCode(levels[l].locals, depth) == EndCode(was, depth)
        decreases |levels[l].locals|
      {
        var locals := levels[l].locals;
        EndUnfolds(locals, depth);
        if locals[|locals| - 1].captured {
          code := code + [CellMachine.CloseUpvalue];
        } else {
          code := code + [CellMachine.Pop];
        }
        levels := levels[l := levels[l].(locals := locals[..|locals| - 1])];
      }
      EndStays(levels[l].locals, depth);
    }
  }

  lemma EndStays(locals: seq<Local>, depth: int)
    requires locals == [] || locals[|locals| - 1].depth <= depth
    ensures Staying(locals, depth) == locals && EndCode(locals, depth) == []
  {
  }

  /** Every function from level `l` outwards has room for another upvalue. */
  predicate Roomy(levels: seq<Level>, l: nat)
    requires l < |levels|
  {
    forall k :: 0 <= k <= l ==> |levels[k].upvalues| < LOCAL_MAX
  }

  /** The nearest binding is not inside its own initializer. */
  predicate Settled(levels: seq<Level>, l: nat, name: seq<int>)
    requires l <= |levels|
  {
    var v := Nearest(levels, l, name);
    v.Some? ==> levels[v.value.level].locals[v.value.slot].depth != -1
  }

  lemma ReferStill(upvalues: seq<Upvalue>, around: Level, more: Level)
    requires AllRefer(upvalues, around) && |more.locals| >= |around.locals| && |more.upvalues| >= |around.upvalues|
    ensures AllRefer(upvalues, more)
  {
    forall u | 0 <= u < |upvalues| ensures Refers(upvalues[u], more) {
      assert Refers(upvalues[u], around);
    }
  }

  /** A level whose upvalues stay the same, while the level around it has lost nothing. */
  lemma SameOk(levels: seq<Level>, more: seq<Level>, l: nat)
    requires |more| == |levels| && l < |levels| && LevelOk(levels, l)
    requires more[l].upvalues == levels[l].upvalues && |more[l].locals| == |levels[l].locals|
    requires l > 0 ==> |more[l - 1].locals| >= |levels[l - 1].locals| && |more[l - 1].upvalues| >= |levels[l - 1].upvalues|
    ensures LevelOk(more, l)
  {
    if l > 0 {
      ReferStill(levels[l].upvalues, levels[l - 1], more[l - 1]);
    }
  }

  lemma Captured(levels: seq<Level>, l: nat, i: nat)
    requires Ok(levels) && l < |levels| && i < |levels[l].locals|
    ensures var more := levels[l := levels[l].(locals := levels[l].locals[i := levels[l].locals[i].(captured := true)])];
      Ok(more) && Grown(levels, more)
  {
    var more := levels[l := levels[l].(locals := levels[l].locals[i := levels[l].locals[i].(captured := true)])];
    forall k | 0 <= k < |more| ensures LevelOk(more, k) {
      SameOk(levels, more, k);
    }
  }

  lemma OneMore(levels: seq<Level>, l: nat, v: Upvalue)
    requires Ok(levels) && 0 < l < |levels| && v !in levels[l].upvalues && |levels[l].upvalues| < LOCAL_MAX
    requires v.index < if v.isLocal then |levels[l - 1].locals| else |levels[l - 1].upvalues|
    ensures var more := levels[l := levels[l].(upvalues := levels[l].upvalues + [v])];
      Ok(more) && Grown(levels, more)
  {
    var more := levels[l := levels[l].(upvalues := levels[l].upvalues + [v])];
    forall k | 0 <= k < |more| ensures LevelOk(more, k) {
      assert LevelOk(levels, k);
      if k != l {
        SameOk(levels, more, k);
      } else {
        assert more[k].upvalues == levels[k].upvalues + [v];
      }
    }
  }

  lemma MoreFlagged(levels: seq<Level>, l: nat, v: Upvalue)
    requires Ok(levels) && 0 < l < |levels|
    requires v.index < if v.isLocal then |levels[l - 1].locals| else |levels[l - 1].upvalues|
    requires Ok(levels[l := levels[l].(upvalues := levels[l].upvalues + [v])])
    ensures Flagged(levels) && (v.isLocal ==> levels[l - 1].locals[v.index].captured) ==>
      Flagged(levels[l := levels[l].(upvalues := levels[l].upvalues + [v])])
  {
    var more := levels[l := levels[l].(upvalues := levels[l].upvalues + [v])];
    if Flagged(levels) && (v.isLocal ==> levels[l - 1].locals[v.index].captured) {
      FlaggedGrown(levels, more);
    }
  }

  /* What the resolved upvalues do at run time. */

  /** The operand pairs emitted behind OP_CLOSURE. */
  function Pairs(upvalues: seq<Upvalue>): (r: seq<CellMachine.Capture>)
    ensures |r| == |upvalues|
    ensures forall u :: 0 <= u < |r| ==> r[u] == CellMachine.Capture(upvalues[u].isLocal, upvalues[u].index)
  {
    seq(|upvalues|, u requires 0 <= u < |upvalues| => CellMachine.Capture(upvalues[u].isLocal, upvalues[u].index))
  }

  /** The running function is that of level `m`, and its variables have the cells of `env`. */
  ghost predicate Running(s: CellMachine.State, levels: seq<Level>, m: nat, env: Variable -> nat)
    requires Ok(levels) && m < |levels|
  {
    s.frames != [] &&
    var frame := CellMachine.Current(s);
    frame.base + |levels[m].locals| <= |s.slots| && frame.closure < |s.funcs| &&
    (forall i :: 0 <= i < |levels[m].locals| ==> s.slots[frame.base + i] == env(Variable(m, i))) &&
    Holding(s.funcs[frame.closure].cells, levels, m, env)
  }

  /** A closure of the function of level `m` has the cells of the variables its upvalues stand for. */
  ghost predicate Holding(cells: seq<nat>, levels: seq<Level>, m: nat, env: Variable -> nat)
    requires Ok(levels) && m < |levels|
  {
    |cells| == |levels[m].upvalues| && forall u :: 0 <= u < |cells| ==> cells[u] == env(Denote(levels, m, u))
  }

  lemma {:induction false} CellsAt(s: CellMachine.State, captures: seq<CellMachine.Capture>, u: nat)
    requires CellMachine.CapturesFit(s, captures) && u < |captures|
    ensures |CellMachine.Cells(s, captures)| == |captures|
    ensures CellMachine.Cells(s, captures)[u] == CellMachine.CellOf(s, captures[u])
    decreases |captures|
  {
    var init := captures[..|captures| - 1];
    if init == [] {
    } else if u < |init| {
      CellsAt(s, init, u);
    } else {
      CellsAt(s, init, 0);
    }
  }

  /**
    Making the closure of a nested function where its enclosing function runs: every
    upvalue gets the cell of the variable it was resolved to, however far out that is.
   */
  lemma ClosureAliases(s: CellMachine.State, levels: seq<Level>, m: nat, env: Variable -> nat, arity: nat)
    requires Ok(levels) && m + 1 < |levels| && Running(s, levels, m, env)
    requires |s.slots| + 1 < s.room || CellMachine.CanGrow(s)
    ensures var i := CellMachine.MakeClosure(arity, Pairs(levels[m + 1].upvalues));
      CellMachine.Proper(s, i) && CellMachine.Step(s, i).Ran? &&
      var t := CellMachine.Step(s, i).state;
      |t.funcs| == |s.funcs| + 1 && Holding(t.funcs[|s.funcs|].cells, levels, m + 1, env)
  {
    var captures := Pairs(levels[m + 1].upvalues);
    var p := CellMachine.Pushed(s, CellMachine.Closure(|s.funcs|));
    assert LevelOk(levels, m + 1) && LevelOk(levels, m);
    forall u | 0 <= u < |captures|
      ensures CellMachine.CaptureFits(p, captures[u]) && CellMachine.CellOf(p, captures[u]) == env(Denote(levels, m + 1, u))
    {
    }
    if captures != [] {
      CellsAt(p, captures, 0);
    }
    forall u | 0 <= u < |captures| ensures CellMachine.Cells(p, captures)[u] == env(Denote(levels, m + 1, u)) {
      CellsAt(p, captures, u);
    }
  }

  /* Which instruction takes a local off the stack. */

  /** The stack is that of compiled code: every slot has a cell of its own, and captured cells are there. */
  predicate Apart(s: CellMachine.State) {
    (forall i, j :: 0 <= i < j < |s.slots| ==> s.slots[i] != s.slots[j]) &&
    (forall i :: 0 <= i < |s.slots| ==> s.slots[i] < |s.store|) && forall c :: c in s.captured ==> c < |s.store|
  }

  /** In frame `k` stand these locals, and those captured at run time are marked. */
  predicate Marked(s: CellMachine.State, k: nat, locals: seq<Local>) {
    k < |s.frames| && forall i :: 0 <= i < |locals| && CapturedAt(s, k, i) ==> locals[i].captured
  }

  /** Slot `i` of a frame is captured. */
  predicate CapturedAt(s: CellMachine.State, k: nat, i: nat)
    requires k < |s.frames|
  {
    s.frames[k].base + i < |s.slots| && s.slots[s.frames[k].base + i] in s.captured
  }

  /** Frame `k` is the current one, or its locals lie below the current one. */
  predicate Below(s: CellMachine.State, k: nat, locals: seq<Local>) {
    k < |s.frames| &&
    (k < |s.frames| - 1 ==> s.frames[k].base + |locals| <= CellMachine.Current(s).base)
  }

  /** The pairs of a closure made in the function with these locals refer to marked ones. */
  predicate PairsMarked(captures: seq<CellMachine.Capture>, locals: seq<Local>) {
    forall j :: 0 <= j < |captures| && captures[j].isLocal ==>
      captures[j].index < |locals| && locals[captures[j].index].captured
  }

  lemma {:induction false} OnlyPairsCapture(s: CellMachine.State, captures: seq<CellMachine.Capture>, c: nat)
    requires CellMachine.CapturesFit(s, captures) && c in CellMachine.Locals(s, captures)
    ensures exists j :: 0 <= j < |captures| && captures[j].isLocal && c == CellMachine.CellOf(s, captures[j])
    decreases |captures|
  {
    var n := |captures| - 1;
    if c in CellMachine.Locals(s, captures[..n]) {
      OnlyPairsCapture(s, captures[..n], c);
      var j :| 0 <= j < n && captures[..n][j].isLocal && c == CellMachine.CellOf(s, captures[..n][j]);
      assert captures[j] == captures[..n][j];
    }
  }

  predicate SlotKept(s: CellMachine.State, t: CellMachine.State, j: nat)
    requires j < |t.slots|
  {
    (j < |s.slots| && t.slots[j] == s.slots[j]) || t.slots[j] !in s.captured
  }

  lemma SameMarks(s: CellMachine.State, t: CellMachine.State, k: nat, locals: seq<Local>)
    requires Marked(s, k, locals) && t.captured == s.captured && k < |t.frames| && t.frames[k] == s.frames[k]
    requires forall j :: 0 <= j < |t.slots| ==> SlotKept(s, t, j)
    ensures Marked(t, k, locals)
  {
    forall i | 0 <= i < |locals| && CapturedAt(t, k, i) ensures locals[i].captured {
      assert SlotKept(s, t, s.frames[k].base + i);
      assert CapturedAt(s, k, i);
    }
  }

  lemma PushedApart(s: CellMachine.State, v: CellMachine.Value)
    requires Apart(s)
    ensures Apart(CellMachine.Pushed(s, v)) && |s.store| !in s.captured
    ensures forall j :: 0 <= j < |s.slots| + 1 ==> SlotKept(s, CellMachine.Pushed(s, v), j)
  {
  }

  lemma ShrunkApart(s: CellMachine.State, n: nat)
    requires Apart(s) && n <= |s.slots|
    ensures Apart(CellMachine.Shrunk(s, n)) && forall j :: 0 <= j < n ==> SlotKept(s, CellMachine.Shrunk(s, n), j)
  {
  }

  /** The sizes, the values and the results are no matter. */
  lemma StackApart(s: CellMachine.State, t: CellMachine.State)
    requires Apart(s) && t.slots == s.slots && |t.store| == |s.store| && t.captured == s.captured
    ensures Apart(t) && forall j :: 0 <= j < |t.slots| ==> SlotKept(s, t, j)
  {
  }

  lemma FrameThere(s: CellMachine.State, k: nat, locals: seq<Local>)
    requires Marked(s, k, locals)
    ensures k < |s.frames|
  {
  }

  lemma PushKeepsMarks(s: CellMachine.State, v: CellMachine.Value, t: CellMachine.State, k: nat, locals: seq<Local>)
    requires Apart(s) && Marked(s, k, locals) && k < |t.frames| && t.frames[k] == s.frames[k]
    requires var p := CellMachine.Pushed(s, v); t.slots == p.slots && t.store == p.store && t.captured == p.captured
    ensures Marked(t, k, locals) && Apart(t)
  {
    hide Apart, Marked, SlotKept;
    FrameThere(s, k, locals);
    PushedApart(s, v);
    StackApart(CellMachine.Pushed(s, v), t);
    SameMarks(s, CellMachine.Pushed(s, v), k, locals);
    SameMarks(CellMachine.Pushed(s, v), t, k, locals);
  }

  lemma ShrinkKeepsMarks(s: CellMachine.State, n: nat, t: CellMachine.State, k: nat, locals: seq<Local>)
    requires Apart(s) && Marked(s, k, locals) && k < |t.frames| && t.frames[k] == s.frames[k] && n <= |s.slots|
    requires t.slots == s.slots[..n] && t.store == s.store && t.captured == s.captured
    ensures Marked(t, k, locals) && Apart(t)
  {
    hide Apart, Marked, SlotKept;
    var p := CellMachine.Shrunk(s, n);
    FrameThere(s, k, locals);
    ShrunkApart(s, n);
    StackApart(p, t);
    SameMarks(s, p, k, locals);
    SameMarks(p, t, k, locals);
  }

  lemma StillKeepsMarks(s: CellMachine.State, t: CellMachine.State, k: nat, locals: seq<Local>)
    requires Apart(s) && Marked(s, k, locals) && k < |t.frames| && t.frames[k] == s.frames[k]
    requires t.slots == s.slots && |t.store| == |s.store| && t.captured == s.captured
    ensures Marked(t, k, locals) && Apart(t)
  {
    hide Apart, Marked, SlotKept;
    StackApart(s, t);
    SameMarks(s, t, k, locals);
  }

  lemma ReturnKeepsMarks(s: CellMachine.State, t: CellMachine.State, v: CellMachine.Value, n: nat, k: nat, locals: seq<Local>)
    requires Apart(s) && Marked(s, k, locals) && k < |t.frames| && t.frames[k] == s.frames[k] && n <= |s.slots|
    requires t.slots == s.slots[..n] + [|s.store|] && t.store == s.store + [v] && t.captured == s.captured
    ensures Marked(t, k, locals) && Apart(t)
  {
    hide Apart, Marked;
    var p := CellMachine.Shrunk(s, n);
    FrameThere(s, k, locals);
    ShrinkKeepsMarks(s, n, p, k, locals);
    PushKeepsMarks(p, v, t, k, locals);
  }

  /** A closure's pairs refer to its own frame. */
  lemma ClosureKeepsMarks(s: CellMachine.State, i: CellMachine.Instr, t: CellMachine.State, k: nat, locals: seq<Local>)
    requires Apart(s) && i.MakeClosure? && CellMachine.Proper(s, i) && Marked(s, k, locals) && Below(s, k, locals)
    requires k == |s.frames| - 1 ==> PairsMarked(i.captures, locals)
    requires var p := CellMachine.Pushed(s, CellMachine.Closure(|s.funcs|));
      t.slots == p.slots && t.store == p.store && t.frames == s.frames && t.captured == s.captured + CellMachine.Locals(p, i.captures)
    ensures Marked(t, k, locals) && Apart(t)
  {
    hide CellMachine.Locals, CellMachine.CapturesFit;
    var p := CellMachine.Pushed(s, CellMachine.Closure(|s.funcs|));
    PushedApart(s, CellMachine.Closure(|s.funcs|));
    forall c | c in CellMachine.Locals(p, i.captures)
      ensures c < |p.store|
    {
      OnlyPairsCapture(p, i.captures, c);
      PairsFit(p, i.captures);
    }
    forall u | 0 <= u < |locals| && CapturedAt(t, k, u)
      ensures locals[u].captured
    {
      var c := t.slots[s.frames[k].base + u];
      if c in CellMachine.Locals(p, i.captures) {
        OnlyPairsCapture(p, i.captures, c);
        PairsFit(p, i.captures);
        var j :| 0 <= j < |i.captures| && i.captures[j].isLocal && c == CellMachine.CellOf(p, i.captures[j]);
        assert CellMachine.Current(s).base + i.captures[j].index == s.frames[k].base + u;
      } else {
        assert CapturedAt(s, k, u);
      }
    }
  }

  lemma PairsFit(s: CellMachine.State, captures: seq<CellMachine.Capture>)
    requires CellMachine.CapturesFit(s, captures)
    ensures forall j :: 0 <= j < |captures| ==> CellMachine.CaptureFits(s, captures[j])
  {
  }

  /**
    Whatever is run, in this frame or in those above it: a local that gets captured is a
    marked one, if the closures made in its own frame are made from resolved pairs.
   */
  lemma StepKeepsMarks(s: CellMachine.State, i: CellMachine.Instr, k: nat, locals: seq<Local>)
    requires Apart(s) && CellMachine.Proper(s, i) && CellMachine.Step(s, i).Ran? && Marked(s, k, locals) && Below(s, k, locals)
    requires i.MakeClosure? && k == |s.frames| - 1 ==> PairsMarked(i.captures, locals)
    requires k < |CellMachine.Step(s, i).state.frames|
    ensures Marked(CellMachine.Step(s, i).state, k, locals) && Apart(CellMachine.Step(s, i).state)
  {
    hide Apart, Marked, PairsMarked, Below, CellMachine.Locals, CellMachine.Cells, CellMachine.CapturesFit, CellMachine.Load;
    var t := CellMachine.Step(s, i).state;
    FrameThere(s, k, locals);
    match i
    case Push(v) => PushKeepsMarks(s, v, t, k, locals);
    case GetLocal(n) => PushKeepsMarks(s, CellMachine.Load(s, s.slots[CellMachine.Current(s).base + n]), t, k, locals);
    case GetUpvalue(n) =>
      PushKeepsMarks(s, CellMachine.Load(s, s.funcs[CellMachine.Current(s).closure].cells[n]), t, k, locals);
    case MakeClosure(_, _) => ClosureKeepsMarks(s, i, t, k, locals);
    case Pop => ShrinkKeepsMarks(s, |s.slots| - 1, t, k, locals);
    case CloseUpvalue => ShrinkKeepsMarks(s, |s.slots| - 1, t, k, locals);
    case Return =>
      ReturnKeepsMarks(s, t, CellMachine.Load(s, s.slots[|s.slots| - 1]), CellMachine.Current(s).base, k, locals);
    case _ => StillKeepsMarks(s, t, k, locals);
  }

  /** The pairs of a resolved function refer to marked locals of the one around it. */
  lemma ResolvedPairs(levels: seq<Level>, m: nat)
    requires Ok(levels) && Flagged(levels) && m + 1 < |levels|
    ensures PairsMarked(Pairs(levels[m + 1].upvalues), levels[m].locals)
  {
    assert LevelOk(levels, m + 1);
    var pairs := Pairs(levels[m + 1].upvalues);
    forall j | 0 <= j < |pairs| && pairs[j].isLocal
      ensures pairs[j].index < |levels[m].locals| && levels[m].locals[pairs[j].index].captured
    {
      assert FlaggedAt(levels, m + 1, j);
    }
  }

  /**
    The end of a scope: each of its locals leaves the stack by the instruction it has to, so
    that its code runs as compiled code must, and the locals of the scopes around stay.
   */
  lemma {:induction false} ScopeEndProper(s: CellMachine.State, locals: seq<Local>, depth: int)
    requires s.frames != [] && Apart(s) && Marked(s, |s.frames| - 1, locals)
    requires locals != [] && locals[0].depth <= depth && |s.slots| == CellMachine.Current(s).base + |locals|
    ensures var code, base := EndCode(locals, depth), CellMachine.Current(s).base;
      && CellMachine.ProperRun(s, code)
      && CellMachine.Run(s, code) == CellMachine.Ran(s.(slots := s.slots[..base + |Staying(locals, depth)|]))
    decreases |locals|
  {
    hide CellMachine.Proper, CellMachine.Step, CellMachine.Run, CellMachine.ProperRun, Marked, Apart, EndCode, Staying;
    var n := |locals| - 1;
    EndUnfolds(locals, depth);
    if locals[n].depth <= depth {
      NothingRun(s);
      assert s.slots[..CellMachine.Current(s).base + |locals|] == s.slots;
    } else {
      var code, t := EndCode(locals, depth), CellMachine.Shrunk(s, |s.slots| - 1);
      LocalGoes(s, locals);
      ShrinkKeepsMarks(s, |s.slots| - 1, t, |s.frames| - 1, locals);
      FewerMarked(t, |s.frames| - 1, locals, n);
      ScopeEndProper(t, locals[..n], depth);
      CellMachine.RunsOn(s, code, t);
      var m := CellMachine.Current(s).base + |Staying(locals, depth)|;
      assert t.slots[..m] == s.slots[..m];
    }
  }

  lemma NothingRun(s: CellMachine.State)
    ensures CellMachine.ProperRun(s, []) && CellMachine.Run(s, []) == CellMachine.Ran(s)
  {
  }

  lemma EndUnfolds(locals: seq<Local>, depth: int)
    requires locals != []
    ensures var n, code := |locals| - 1, EndCode(locals, depth);
      if locals[n].depth <= depth then code == [] && Staying(locals, depth) == locals
      else
        && code != [] && code[0] == EndInstr(locals[n]) && code == [code[0]] + code[1..] && code[1..] == EndCode(locals[..n], depth)
        && Staying(locals, depth) == Staying(locals[..n], depth) && (n == 0 ==> code[1..] == [])
  {
  }

  /** The last local leaves the stack. */
  lemma LocalGoes(s: CellMachine.State, locals: seq<Local>)
    requires s.frames != [] && Apart(s) && Marked(s, |s.frames| - 1, locals)
    requires |locals| > 1 && |s.slots| == CellMachine.Current(s).base + |locals|
    ensures var i := EndInstr(locals[|locals| - 1]);
      CellMachine.Proper(s, i) && CellMachine.Step(s, i) == CellMachine.Ran(CellMachine.Shrunk(s, |s.slots| - 1))
  {
    var n := |locals| - 1;
    assert CapturedAt(s, |s.frames| - 1, n) <==> s.slots[CellMachine.Current(s).base + n] in s.captured;
  }

  lemma FewerMarked(s: CellMachine.State, k: nat, locals: seq<Local>, n: nat)
    requires Marked(s, k, locals) && n <= |locals|
    ensures Marked(s, k, locals[..n])
  {
  }
}
