/** Function activations: operand memory, slots, and the isolation of frames. */
module Activations {
  import opened Words
  import opened Ast
  import opened Language
  import opened Bytecode
  import opened Machine
  import opened Runs
  import opened Codegen
  import opened ExprCorrect
  import opened StmtCorrect
  import opened Correctness
  import opened Needs
  import opened Definedness
  import opened Session

  // ---- frames ----

  /** Frames below the top one are out of reach: a run that starts above a caller
      either still has the caller's frame as it was, with its locals, operand stack
      and stack height, or it has come back to it, just behind the call. */
  lemma {:induction false} FrameIsolation(m: Vm, below: seq<Frame>, caller: Frame, s: Frames, n: nat, s': Frames)
    returns (k: nat)
    requires below + [caller] <= s.below
    requires Takes(m, s, n, At(s'))
    ensures below + [caller] <= s'.below
         || (k <= n && Takes(m, s, k, At(Frames(below, caller.(pc := caller.pc + 3)))))
    decreases n
  {
    k := 0;
    if n > 0 {
      hide Takes;
      var s1 := FirstStep(m, s, n, s');
      IsolationStep(m, below, caller, s);
      if below + [caller] <= s1.below {
        var j := FrameIsolation(m, below, caller, s1, n - 1, s');
        k := j + 1;
        if !(below + [caller] <= s'.below) {
          StepFirst(m, s, s1, j, At(Frames(below, caller.(pc := caller.pc + 3))));
        }
      } else {
        k := 1;
        ZeroSteps(m, s1);
        StepFirst(m, s, s1, 0, At(s1));
      }
    }
  }

  lemma ZeroSteps(m: Vm, s: Frames)
    ensures Takes(m, s, 0, At(s))
  {
  }

  lemma FirstStep(m: Vm, s: Frames, n: nat, s': Frames) returns (s1: Frames)
    requires n > 0 && Takes(m, s, n, At(s'))
    ensures !Halted(s) && Step(m, s) == At(s1) && Takes(m, s1, n - 1, At(s'))
  {
    hide Step;
    s1 := Step(m, s).s;
  }

  lemma IsolationStep(m: Vm, below: seq<Frame>, caller: Frame, s: Frames)
    requires below + [caller] <= s.below && Step(m, s).At?
    ensures !Halted(s)
    ensures var s1 := Step(m, s).s;
            below + [caller] <= s1.below || s1 == Frames(below, caller.(pc := caller.pc + 3))
  {
    hide Handle, Fetch;
    var n := |below|;
    if !Live(s.top) {
      if |s.below| == n + 1 {
        assert s.below == below + [caller];
        assert s.below[..n] == below;
      } else {
        assert s.below[..|s.below| - 1][..n + 1] == s.below[..n + 1];
      }
    }
  }

  /** A call starts with argument i in slot i, which is the slot the compiled body
      uses for parameter i, and with an empty operand stack. */
  lemma ParameterSlots(m: Vm, params: seq<Param>, func: Func, vs: seq<Value>, i: nat)
    requires |params| == |vs| <= func.nvars && i < |vs| && Distinct(ParamVars(params))
    ensures Lookup(FuncScope(params).vars, params[i].name) == Some(i)
    ensures Entry(m, func, vs).locals[i] == Some(vs[i]) && Entry(m, func, vs).stack == []
    ensures |Entry(m, func, vs).locals| == func.nvars
  {
    assert ParamVars(params)[i].name == params[i].name;
    LookupAt(ParamVars(params), i);
  }

  // ---- operand memory ----

  /** If the checked machine never overruns, the machine without the check takes
      the same steps. */
  lemma {:induction false} BoundUnneeded(m: Vm, s: Frames, n: nat, r: Result)
    requires Takes(Unchecked(m), s, n, r)
    requires forall k: nat :: !Takes(m, s, k, Trap(Memory))
    ensures Takes(m, s, n, r)
    decreases n
  {
    if n > 0 {
      hide Step;
      assert !Takes(m, s, 1, Trap(Memory));
      BoundInvisibleStep(m, s);
      if Step(m, s).At? {
        var s1 := Step(m, s).s;
        forall k: nat ensures !Takes(m, s1, k, Trap(Memory)) {
          assert !Takes(m, s, k + 1, Trap(Memory));
        }
        BoundUnneeded(m, s1, n - 1, r);
      }
    }
  }

  /** In a checked frame the operand stack never exceeds its memory. */
  lemma {:induction false} WithinBound(m: Vm, s: Frames, n: nat, s': Frames)
    requires m.checked && |s.top.stack| <= s.top.cap && (forall f :: f in s.below ==> |f.stack| <= f.cap)
    requires Takes(m, s, n, At(s'))
    ensures |s'.top.stack| <= s'.top.cap
    decreases n
  {
    if n > 0 {
      hide Step;
      WithinBoundStep(m, s);
      WithinBound(m, Step(m, s).s, n - 1, s');
    }
  }

  lemma WithinBoundStep(m: Vm, s: Frames)
    requires m.checked && |s.top.stack| <= s.top.cap && (forall f :: f in s.below ==> |f.stack| <= f.cap)
    requires !Halted(s) && Step(m, s).At?
    ensures var s1 := Step(m, s).s;
            |s1.top.stack| <= s1.top.cap && (forall f :: f in s1.below ==> |f.stack| <= f.cap)
  {
    hide Fetch;
  }

  /** A push beyond the bound is the only thing the bound can make fail. */
  lemma OverrunStep(m: Vm, s: Frames)
    requires !Halted(s) && Step(m, s) == Trap(Memory) && Step(Unchecked(m), s) != Trap(Memory)
    ensures var r := Step(Unchecked(m), s);
            r.At? && |r.s.top.stack| > r.s.top.cap
  {
    hide Fetch;
  }

  lemma {:induction false} OverrunShows(m: Vm, s: Frames, n: nat) returns (k: nat, s': Frames)
    requires Takes(m, s, n, Trap(Memory)) && forall i: nat :: !Takes(Unchecked(m), s, i, Trap(Memory))
    ensures Takes(Unchecked(m), s, k, At(s')) && |s'.top.stack| > s'.top.cap
    decreases n
  {
    hide Step;
    assert !Takes(Unchecked(m), s, 1, Trap(Memory));
    if Step(m, s).Trap? {
      OverrunStep(m, s);
      k, s' := 1, Step(Unchecked(m), s).s;
      assert Takes(Unchecked(m), s', 0, At(s'));
    } else {
      BoundInvisibleStep(m, s);
      var s1 := Step(m, s).s;
      forall i: nat ensures !Takes(Unchecked(m), s1, i, Trap(Memory)) {
        assert !Takes(Unchecked(m), s, i + 1, Trap(Memory));
      }
      k, s' := OverrunShows(m, s1, n - 1);
      k := k + 1;
    }
  }

  /** Operand memory overruns exactly when the run without a bound reaches a state
      with more operands than it was allocated for. */
  lemma OverrunExact(m: Vm, s: Frames)
    requires m.checked && |s.top.stack| <= s.top.cap && (forall f :: f in s.below ==> |f.stack| <= f.cap)
    requires forall n: nat :: !Takes(Unchecked(m), s, n, Trap(Memory))
    ensures (exists n: nat :: Takes(m, s, n, Trap(Memory))) <==>
            (exists n: nat, s' :: Takes(Unchecked(m), s, n, At(s')) && |s'.top.stack| > s'.top.cap)
  {
    hide Takes;
    if n: nat :| Takes(m, s, n, Trap(Memory)) {
      var k, s' := OverrunShows(m, s, n);
    } else if n: nat, s' :| Takes(Unchecked(m), s, n, At(s')) && |s'.top.stack| > s'.top.cap {
      BoundUnneeded(m, s, n, At(s'));
      WithinBound(m, s, n, s');
    }
  }

  /** Operand memory that covers what a function's text needs is enough: no reachable
      state, at any depth of nesting, in any loop iteration and in any callee, has
      more operand words than its frame was allocated. */
  lemma StackBound(p: Program, m: Vm, g: Globals, depth: nat, decl: FuncDecl, func: Func, vs: seq<Value>, n: nat,
                   s: Frames)
    requires World(p, m, g, depth) && m.checked && Compiled(g, decl, func) && Roomy(decl, func)
    requires |vs| == |decl.params| && forall i :: 0 <= i < |vs| ==> TyOf(vs[i]) == decl.params[i].ty
    requires |vs| <= func.nvars
    requires Takes(Unchecked(m), Mid(func.body, 0, FreshData(m, func, vs)), n, At(s))
    ensures |s.top.stack| <= s.top.cap
    ensures s.below == [] ==> s.top.cap == func.nstack
  {
    hide *;
    var sc, st, d := FuncScope(decl.params), State(BindParams(decl.params, vs), []), FreshData(m, func, vs);
    var start := Mid(func.body, 0, d);
    BodyStarts(p, m, g, depth, decl, func, vs);
    NeverOverruns(p, m, g, depth, sc, decl.body, st, d);
    BoundUnneeded(m, start, n, At(s));
    StartsEmpty(m, func, vs);
    WithinBound(m, start, n, s);
    CapKept(m, start, n, s);
    CapOf(s);
  }

  lemma NeverOverruns(p: Program, m: Vm, g: Globals, depth: nat, sc: Scope, b: Block, st: State, d: Data)
    requires Starts(p, m, g, depth, sc, b, st, d)
    ensures g.Ok() && sc.off <= |sc.vars|
    ensures forall n: nat :: !Takes(m, Mid(Code(g, sc, b), 0, d), n, Trap(Memory))
  {
    hide Takes, BlockCode, FitsBlock, Agree, World, ExecBlock;
    DefinitelyAssigned(p, m, g, depth, sc, b, st, d);
  }

  lemma StartsEmpty(m: Vm, func: Func, vs: seq<Value>)
    requires |vs| <= func.nvars
    ensures var s := Mid(func.body, 0, FreshData(m, func, vs));
            s.below == [] && s.top.stack == [] && BottomCap(s) == func.nstack
  {
  }

  lemma CapOf(s: Frames)
    ensures s.below == [] ==> BottomCap(s) == s.top.cap
  {
  }

  lemma BodyStarts(p: Program, m: Vm, g: Globals, depth: nat, decl: FuncDecl, func: Func, vs: seq<Value>)
    requires World(p, m, g, depth) && Compiled(g, decl, func) && (m.checked ==> Roomy(decl, func))
    requires |vs| == |decl.params| && forall i :: 0 <= i < |vs| ==> TyOf(vs[i]) == decl.params[i].ty
    requires |vs| <= func.nvars
    ensures Starts(p, m, g, depth, FuncScope(decl.params), decl.body, State(BindParams(decl.params, vs), []),
                   FreshData(m, func, vs))
    ensures Code(g, FuncScope(decl.params), decl.body) == func.body
  {
    hide BlockCode, FitsBlock, BlockNeed, Agree, Distinct, BindParams;
    assert g.Ok();
    assert |vs| <= BlockCode(g, FuncScope(decl.params), decl.body).sc.vmax;
    AgreeEntry(m, decl.params, func, vs);
    BindParamsKeys(decl.params, vs);
  }

  function BottomCap(s: Frames): nat { if s.below == [] then s.top.cap else s.below[0].cap }

  lemma {:induction false} CapKept(m: Vm, s: Frames, n: nat, s': Frames)
    requires Takes(m, s, n, At(s'))
    ensures BottomCap(s') == BottomCap(s)
    decreases n
  {
    hide Step;
    if n > 0 {
      CapKeptStep(m, s);
      CapKept(m, Step(m, s).s, n - 1, s');
    }
  }

  lemma CapKeptStep(m: Vm, s: Frames)
    requires !Halted(s) && Step(m, s).At?
    ensures BottomCap(Step(m, s).s) == BottomCap(s)
  {
    hide Fetch;
  }
}
