/** Definite assignment: no compiled run reads a word that nothing has been stored
    in, so what unused slots contain does not matter to any run. */
module Definedness {
  import opened Words
  import opened Ast
  import opened Language
  import opened Bytecode
  import opened Machine
  import opened Runs
  import opened Codegen
  import opened Layout
  import opened Needs
  import opened ExprCorrect
  import opened StmtCorrect
  import opened Correctness

  /** Compiled code never loads an undefined word, in any iteration, scope or
      callee, whatever the slots outside the visible variables and the fresh
      locals of callees contain - also nothing at all. Nor does it ever leave its
      locals or (in a checked frame) its operand words, and no source run meets a
      variable without a value. */
  lemma DefinitelyAssigned(p: Program, m: Vm, g: Globals, depth: nat, sc: Scope, b: Block, st: State, d: Data)
    requires Starts(p, m, g, depth, sc, b, st, d)
    ensures forall n: nat, why :: Takes(m, Mid(Code(g, sc, b), 0, d), n, Trap(why)) ==> Sane(why)
    ensures forall fuel: nat :: var o := ExecBlock(p, fuel, depth, b, st); o.Crash? ==> Sane(o.why)
  {
    hide Takes, ExecBlock, BlockCode, FitsBlock, Agree, World;
    forall n: nat, why | Takes(m, Mid(Code(g, sc, b), 0, d), n, Trap(why)) ensures Sane(why) {
      MachineToSource(p, m, g, depth, sc, b, st, d, n, Trap(why));
    }
    forall fuel: nat ensures var o := ExecBlock(p, fuel, depth, b, st); o.Crash? ==> Sane(o.why) {
      if !ExecBlock(p, fuel, depth, b, st).Timeout? {
        var n, r := SourceToMachine(p, m, g, depth, sc, b, st, d, fuel);
      }
    }
  }

  // ---- less defined runs ----

  /** `ws1` is `ws2` with words, or room, missing. */
  ghost predicate LessWords(ws1: seq<Word>, ws2: seq<Word>) {
    |ws1| <= |ws2| && forall i :: 0 <= i < |ws1| ==> ws1[i].None? || ws1[i] == ws2[i]
  }

  ghost predicate LessFrame(f1: Frame, f2: Frame) {
    && f1.code == f2.code && f1.pc == f2.pc && f1.stack == f2.stack && f1.cap <= f2.cap
    && LessWords(f1.locals, f2.locals)
  }

  ghost predicate LessFrames(s1: Frames, s2: Frames) {
    && LessFrame(s1.top, s2.top) && |s1.below| == |s2.below|
    && forall i :: 0 <= i < |s1.below| ==> LessFrame(s1.below[i], s2.below[i])
  }

  ghost predicate LessVm(m1: Vm, m2: Vm) {
    && m2 == m1.(junk := m2.junk)
    && forall i :: m1.junk(i).None? || m1.junk(i) == m2.junk(i)
  }

  ghost predicate LessResult(r1: Result, r2: Result) {
    if r1.Trap? then r2 == r1 else r2.At? && LessFrames(r1.s, r2.s)
  }

  lemma LessHandle(m1: Vm, m2: Vm, i: Instr, f1: Frame, f2: Frame)
    requires !i.Invoke? && LessVm(m1, m2) && LessFrame(f1, f2)
    ensures match Handle(m1, i, f1)
            case Ok(f1') => Handle(m2, i, f2).Ok? && LessFrame(f1', Handle(m2, i, f2).f)
            case Bad(why) => why == Unbound || why == Memory || Handle(m2, i, f2) == Bad(why)
  {
    hide Apply, Promote, Fetch;
  }

  lemma LessEntry(m1: Vm, m2: Vm, func: Func, vs: seq<Value>)
    requires |vs| <= func.nvars && LessVm(m1, m2)
    ensures LessFrame(Entry(m1, func, vs), Entry(m2, func, vs))
  {
  }

  lemma LessEnter(m1: Vm, m2: Vm, index: nat, s1: Frames, s2: Frames)
    requires LessVm(m1, m2) && LessFrames(s1, s2)
    ensures LessResult(Enter(m1, s1, index), Enter(m2, s2, index))
  {
    hide Entry;
    var r := Enter(m1, s1, index);
    if r.At? {
      var f := m1.funcs[index];
      LessEntry(m1, m2, f, s1.top.stack[|s1.top.stack| - f.argc..]);
    }
  }

  lemma LessReturn(s1: Frames, s2: Frames)
    requires LessFrames(s1, s2) && s1.below != []
    ensures LessFrames(Return(s1), Return(s2))
  {
  }

  /** One step of a less defined machine that does not miss anything. */
  lemma LessStep(m1: Vm, m2: Vm, s1: Frames, s2: Frames)
    requires LessVm(m1, m2) && LessFrames(s1, s2) && !Halted(s1)
    requires Step(m1, s1) != Trap(Unbound) && Step(m1, s1) != Trap(Memory)
    ensures !Halted(s2) && LessResult(Step(m1, s1), Step(m2, s2))
  {
    hide Handle, Enter, Return, LessVm, Fetch, LessWords;
    if !Live(s1.top) {
      LessReturn(s1, s2);
    } else if Fetch(s1.top.code, s1.top.pc).Some? {
      var i := Fetch(s1.top.code, s1.top.pc).value;
      if i.Invoke? {
        LessEnter(m1, m2, i.index, s1, s2);
      } else {
        LessHandle(m1, m2, i, s1.top, s2.top);
      }
    }
  }

  /** A less defined run that misses nothing can be followed step by step. */
  lemma {:induction false} LessTakes(m1: Vm, m2: Vm, s1: Frames, s2: Frames, n: nat, r1: Result) returns (r2: Result)
    requires LessVm(m1, m2) && LessFrames(s1, s2)
    requires Takes(m1, s1, n, r1) && r1 != Trap(Unbound) && r1 != Trap(Memory)
    ensures Takes(m2, s2, n, r2) && LessResult(r1, r2)
    decreases n
  {
    hide Step, LessVm, LessFrames;
    if n == 0 {
      return At(s2);
    }
    LessStep(m1, m2, s1, s2);
    if Step(m1, s1).Trap? {
      r2 := r1;
    } else {
      r2 := LessTakes(m1, m2, Step(m1, s1).s, Step(m2, s2).s, n - 1, r1);
    }
  }

  /** A state of a run is followed by another one, or final. */
  lemma {:induction false} RunsOn(m: Vm, s: Frames, n: nat) returns (k: nat, r: Result)
    ensures Takes(m, s, k, r) && (k == n || (k < n && Final(r)))
    decreases n
  {
    if n == 0 || Halted(s) {
      return 0, At(s);
    }
    if Step(m, s).Trap? {
      return 1, Step(m, s);
    }
    k, r := RunsOn(m, Step(m, s).s, n - 1);
    k := k + 1;
  }

  /** And the other way round: a less defined run that never misses anything goes
      along with any more defined one. */
  lemma LessFollows(m1: Vm, m2: Vm, s1: Frames, s2: Frames, n: nat, r2: Result) returns (r1: Result)
    requires LessVm(m1, m2) && LessFrames(s1, s2) && Takes(m2, s2, n, r2)
    requires forall k: nat, why :: Takes(m1, s1, k, Trap(why)) ==> Sane(why)
    ensures Takes(m1, s1, n, r1) && LessResult(r1, r2)
  {
    hide Takes, LessVm, LessWords;
    var k;
    k, r1 := RunsOn(m1, s1, n);
    var r := LessTakes(m1, m2, s1, s2, k, r1);
    if Final(r1) {
      FinalUnique(m2, s2, k, r, n, r2);
      assert k == n;
    }
    TakesFunctional(m2, s2, n, r, r2);
  }

  // ---- what unused slots contain ----

  /** `d` with nothing in the slots from `visible` on, and only `size` of them. */
  function Blank(d: Data, visible: nat, size: nat, cap: nat): Data
    requires visible <= size <= |d.locals|
  {
    d.(locals := d.locals[..visible] + seq(size - visible, _ => None), cap := cap)
  }

  function Nothing(m: Vm): Vm { m.(junk := _ => None) }

  lemma BlankAgrees(vars: seq<Var>, store: Store, d: Data, size: nat, cap: nat)
    requires Agree(vars, store, d.locals) && |vars| <= size <= |d.locals|
    ensures Agree(vars, store, Blank(d, |vars|, size, cap).locals)
  {
    assert forall i :: 0 <= i < |vars| ==> Blank(d, |vars|, size, cap).locals[i] == d.locals[i];
  }

  /** Only the visible slots and enough room matter to being ready. */
  lemma StartsBlank(p: Program, m: Vm, g: Globals, depth: nat, sc: Scope, b: Block, st: State, d: Data, size: nat,
                    cap: nat)
    requires Starts(p, m, g, depth, sc, b, st, d)
    requires |sc.vars| <= size <= |d.locals| && BlockCode(g, sc, b).sc.vmax <= size
    requires m.checked ==> Suffices(BlockNeed(st.store.Keys, b), |d.stack|, cap)
    ensures Starts(p, Nothing(m), g, depth, sc, b, st, Blank(d, |sc.vars|, size, cap))
  {
    hide BlockCode, FitsBlock, BlockNeed, Agree, Compiled, Roomy;
    BlankAgrees(sc.vars, st.store, d, size, cap);
  }

  lemma BlankLess(m: Vm, code: seq<byte>, d: Data, d': Data, visible: nat, size: nat, cap: nat)
    requires visible <= size <= |d.locals| && size <= |d'.locals| && d.locals[..visible] == d'.locals[..visible]
    requires cap <= d'.cap && d.stack == d'.stack
    ensures LessFrames(Mid(code, 0, Blank(d, visible, size, cap)), Mid(code, 0, d'))
    ensures LessVm(Nothing(m), m)
  {
    assert forall i :: 0 <= i < visible ==> d.locals[..visible][i] == d'.locals[..visible][i];
  }

  lemma AgreeSame(vars: seq<Var>, store: Store, ls1: seq<Word>, ls2: seq<Word>)
    requires Agree(vars, store, ls1) && Agree(vars, store, ls2)
    ensures |vars| <= |ls1| && |vars| <= |ls2| && ls1[..|vars|] == ls2[..|vars|]
  {
    forall i | 0 <= i < |vars| ensures ls1[i] == ls2[i] {
      assert ls1[i] == Some(store[vars[i].name]);
    }
  }

  /** Two runs at the same point: the same open frames, at the same places in the
      same code, with the same operands. */
  ghost predicate SameFrame(f1: Frame, f2: Frame) {
    f1.code == f2.code && f1.pc == f2.pc && f1.stack == f2.stack
  }

  ghost predicate Alike(r1: Result, r2: Result) {
    if r1.Trap? then r2 == r1
    else
      && r2.At? && SameFrame(r1.s.top, r2.s.top) && |r1.s.below| == |r2.s.below|
      && forall i :: 0 <= i < |r1.s.below| ==> SameFrame(r1.s.below[i], r2.s.below[i])
  }

  /** Slots that no visible variable owns are unobservable, in this frame and in
      every callee's: whatever a finished sibling scope or the allocator left in
      them, two runs from the same source state go through the same points, step by
      step and however long, and agree on every variable if they end. */
  lemma StaleSlotsUnobservable(p: Program, m: Vm, j: nat -> Word, g: Globals, depth: nat, sc: Scope, b: Block,
                               st: State,
                               d1: Data, d2: Data, n: nat, r1: Result)
    returns (r2: Result)
    requires Starts(p, m, g, depth, sc, b, st, d1) && Starts(p, m.(junk := j), g, depth, sc, b, st, d2)
    requires Takes(m, Mid(Code(g, sc, b), 0, d1), n, r1)
    ensures Takes(m.(junk := j), Mid(Code(g, sc, b), 0, d2), n, r2) && Alike(r1, r2)
    ensures r1.At? && Final(r1) ==>
              var vars := |BlockCode(g, sc, b).sc.vars|;
              var (ls1, ls2) := (r1.s.top.locals, r2.s.top.locals);
              vars <= |ls1| && vars <= |ls2| && ls1[..vars] == ls2[..vars]
  {
    hide Takes, Agree, BlockCode, BlockNeed, FitsBlock, World, ExecBlock, LessWords;
    var code, m2 := Code(g, sc, b), m.(junk := j);
    var size, cap := Min(|d1.locals|, |d2.locals|), Min(d1.cap, d2.cap);
    AgreeSame(sc.vars, st.store, d1.locals, d2.locals);
    StartsBlank(p, m, g, depth, sc, b, st, d1, size, cap);
    var d0 := Blank(d1, |sc.vars|, size, cap);
    DefinitelyAssigned(p, Nothing(m), g, depth, sc, b, st, d0);
    BlankLess(m, code, d1, d1, |sc.vars|, size, cap);
    BlankLess(m2, code, d1, d2, |sc.vars|, size, cap);
    var r0 := LessFollows(Nothing(m), m, Mid(code, 0, d0), Mid(code, 0, d1), n, r1);
    r2 := LessTakes(Nothing(m), m2, Mid(code, 0, d0), Mid(code, 0, d2), n, r0);
    if r1.At? && Final(r1) {
      MachineToSource(p, m, g, depth, sc, b, st, d1, n, r1);
      MachineToSource(p, m2, g, depth, sc, b, st, d2, n, r2);
      var o := ExecBlock(p, n + 1, depth, b, st);
      AgreeSame(BlockCode(g, sc, b).sc.vars, o.st.store, r1.s.top.locals, r2.s.top.locals);
    }
  }

  // ---- scopes ----

  /** `b` is compiled in a child scope `child` when `s` is compiled in `sc`. */
  ghost predicate Opens(g: Globals, sc: Scope, s: Stmt, child: Scope, b: Block)
    requires g.Ok() && sc.off <= |sc.vars|
  {
    match s
    case If(c, t, f) =>
      var sc1 := Pushed(sc, ExprCode(sc.vars, c), c);
      var sct := Child(sc1, sc1.ssize);
      || (child == sct && b == t)
      || (BlockCode(g, sct, t).SCode? && child == Child(Back(sc1, BlockCode(g, sct, t).sc), sc1.ssize) && b == f)
    case While(c, body) => child == Child(Pushed(sc, ExprCode(sc.vars, c), c), 0) && b == body
    case _ => false
  }

  /** A child scope's place in its statement. */
  lemma ChildOf(g: Globals, sc: Scope, s: Stmt, child: Scope, b: Block)
    requires g.Ok() && sc.off <= |sc.vars| <= sc.vmax && StmtCode(g, sc, s).SCode? && Fits(g, sc, s)
    requires Opens(g, sc, s, child, b)
    ensures child.vars == sc.vars && child.off <= |child.vars| <= child.vmax && FitsBlock(g, child, b)
    ensures BlockCode(g, child, b).SCode? && BlockCode(g, child, b).sc.vmax <= StmtCode(g, sc, s).sc.vmax
  {
    if s.If? {
      var c, ct, cf, sct, scf := IfLayout(g, sc, s);
      hide ExprCode, BlockCode, FitsBlock, StmtCode, Fits, Depth;
    } else {
      var c, cb, c2 := WhileLayout(g, sc, s);
      hide ExprCode, BlockCode, FitsBlock, StmtCode, Fits, Depth;
    }
  }

  lemma Inherits(p: Program, m: Vm, g: Globals, depth: nat, sc: Scope, r: SCode, e1: bool, st: State, d: Data,
                 child: Scope, rc: SCode, e2: bool)
    requires Placed(p, m, g, depth, sc, r, e1, st, d) && (e1 ==> e2)
    requires child.vars == sc.vars && child.off <= |child.vars| <= child.vmax
    requires rc.SCode? && rc.sc.vmax <= r.sc.vmax
    ensures Placed(p, m, g, depth, child, rc, e2, st, d)
  {
    hide World, Agree;
  }

  lemma NeedsLess(g: Globals, sc: Scope, s: Stmt, child: Scope, b: Block, names: set<string>, height: nat, cap: nat)
    requires g.Ok() && sc.off <= |sc.vars| && Opens(g, sc, s, child, b)
    ensures Suffices(StmtNeed(names, s), height, cap) ==> Suffices(BlockNeed(names, b), height, cap)
  {
    hide BlockNeed, Depth, BlockCode, ExprCode;
  }

  lemma ChildPlaced(p: Program, m: Vm, g: Globals, depth: nat, sc: Scope, s: Stmt, st: State, d: Data,
                    child: Scope, b: Block)
    requires g.Ok() && sc.off <= |sc.vars| && Fits(g, sc, s) && Opens(g, sc, s, child, b)
    requires Placed(p, m, g, depth, sc, StmtCode(g, sc, s), Suffices(StmtNeed(st.store.Keys, s), |d.stack|, d.cap), st,
                    d)
    ensures Starts(p, m, g, depth, child, b, st, d) && child.vars == sc.vars
  {
    var r, names := StmtCode(g, sc, s), st.store.Keys;
    assert r.SCode? && |sc.vars| <= sc.vmax;
    hide Placed, ExprCode, BlockCode, FitsBlock, StmtCode, Fits, World, BlockNeed, StmtNeed, Opens, Suffices;
    ChildOf(g, sc, s, child, b);
    NeedsLess(g, sc, s, child, b, names, |d.stack|, d.cap);
    Inherits(p, m, g, depth, sc, r, Suffices(StmtNeed(names, s), |d.stack|, d.cap), st, d,
             child, BlockCode(g, child, b), Suffices(BlockNeed(names, b), |d.stack|, d.cap));
  }

  /** No scope reads what its siblings left behind: entered at any point where its
      `if` or `while` may run - any branch, any iteration - with every slot beyond
      the outer variables undefined, its code loads no undefined word, and whatever
      those slots really contain, it goes through the same points. */
  lemma ScopeDefinesItsOwn(p: Program, m: Vm, g: Globals, depth: nat, sc: Scope, s: Stmt, st: State, d: Data,
                           child: Scope, b: Block, n: nat, r: Result)
    returns (r0: Result)
    requires g.Ok() && sc.off <= |sc.vars| && Fits(g, sc, s) && Opens(g, sc, s, child, b)
    requires Placed(p, m, g, depth, sc, StmtCode(g, sc, s), Suffices(StmtNeed(st.store.Keys, s), |d.stack|, d.cap), st,
                    d)
    requires Takes(m, Mid(Code(g, child, b), 0, d), n, r)
    ensures |sc.vars| <= |d.locals|
    ensures var d0 := d.(locals := d.locals[..|sc.vars|] + seq(|d.locals| - |sc.vars|, _ => None));
            && Takes(m, Mid(Code(g, child, b), 0, d0), n, r0) && Alike(r, r0)
            && forall k: nat, why :: Takes(m, Mid(Code(g, child, b), 0, d0), k, Trap(why)) ==> Sane(why)
  {
    hide Takes, StmtCode, Fits, BlockCode, BlockNeed, StmtNeed, FitsBlock, World, ExprCode, Alike, Opens, Pushed;
    ChildPlaced(p, m, g, depth, sc, s, st, d, child, b);
    var d0 := StartsUnset(p, m, g, depth, child, b, st, d);
    DefinitelyAssigned(p, m, g, depth, child, b, st, d0);
    assert m.(junk := m.junk) == m;
    r0 := StaleSlotsUnobservable(p, m, m.junk, g, depth, child, b, st, d, d0, n, r);
  }

  lemma StartsUnset(p: Program, m: Vm, g: Globals, depth: nat, sc: Scope, b: Block, st: State, d: Data)
    returns (d0: Data)
    requires Starts(p, m, g, depth, sc, b, st, d)
    ensures |sc.vars| <= |d.locals| && Starts(p, m, g, depth, sc, b, st, d0)
    ensures d0 == d.(locals := d.locals[..|sc.vars|] + seq(|d.locals| - |sc.vars|, _ => None))
  {
    hide BlockCode, FitsBlock, BlockNeed, Agree, World;
    AgreeSame(sc.vars, st.store, d.locals, d.locals);
    d0 := Blank(d, |sc.vars|, |d.locals|, d.cap);
    BlankAgrees(sc.vars, st.store, d, |d.locals|, d.cap);
  }
}
