/** A program with one variable more than an operand byte can name. */
module Crowded {
  import opened Words
  import opened Ast
  import opened Language
  import opened Bytecode
  import opened Machine
  import opened Runs
  import opened Codegen
  import opened ExprCorrect
  import opened Layout
  import opened StmtCorrect

  /** v, vv, vvv, ... */
  function Name(i: nat): string { seq(i + 1, _ => 'v') }

  function Vars(n: nat): seq<Var> { seq(n, i requires 0 <= i => Var(Name(i), TInt)) }

  /** Variables `i` to `i + n` are set to 0 for the first time. */
  function Fresh(i: nat, n: nat, rest: Block): Block
    decreases n
  {
    if n == 0 then rest else Then(Assign(Name(i), IntLit(0)), Fresh(i + 1, n - 1, rest))
  }

  function Else(f: Block): Block { Then(If(IntLit(0), End, f), End) }

  /** `k` variables, as many again in a nested scope, and one more in a third. */
  function Crowd(k: nat): Block { Fresh(0, k, Else(Inner(k))) }

  function Inner(k: nat): Block { Fresh(k, k, Else(Last(2 * k))) }

  function Last(k: nat): Block { Then(Assign(Name(k), IntLit(7)), End) }

  // ---- what it means ----

  function Zeros(n: nat): Store { if n == 0 then map[] else Zeros(n - 1)[Name(n - 1) := IntV(0)] }

  lemma {:induction false} ZerosAre(n: nat)
    ensures forall x :: x in Zeros(n) ==> 1 <= |x| <= n && Zeros(n)[x] == IntV(0)
    ensures forall i :: 0 <= i < n ==> Name(i) in Zeros(n)
  {
    if n > 0 { ZerosAre(n - 1); }
  }

  lemma {:induction false} ZerosGrow(i: nat, j: nat)
    requires i <= j
    ensures Zeros(i).Keys <= Zeros(j).Keys
  {
    if i < j { ZerosGrow(i, j - 1); }
  }

  lemma LeaveZeros(inner: Store, n: nat)
    requires Zeros(n).Keys <= inner.Keys && forall x :: x in Zeros(n) ==> inner[x] == IntV(0)
    ensures Leave(inner, Zeros(n)) == Zeros(n)
  {
    ZerosAre(n);
  }

  lemma SetExec(p: Program, depth: nat, i: nat, c: int32)
    ensures Exec(p, 0, depth, Assign(Name(i), IntLit(c)), State(Zeros(i), []))
         == Done(State(Zeros(i)[Name(i) := IntV(c)], []))
  {
    ZerosAre(i);
    assert |Name(i)| == i + 1;
  }

  lemma {:induction false} FreshExec(p: Program, depth: nat, i: nat, n: nat, rest: Block)
    ensures ExecBlock(p, 0, depth, Fresh(i, n, rest), State(Zeros(i), []))
         == ExecBlock(p, 0, depth, rest, State(Zeros(i + n), []))
    decreases n
  {
    hide Exec;
    if n > 0 {
      SetExec(p, depth, i, 0);
      FreshExec(p, depth, i + 1, n - 1, rest);
    }
  }

  lemma ElseExec(p: Program, depth: nat, n: nat, f: Block, inner: Store)
    requires ExecBlock(p, 0, depth, f, State(Zeros(n), [])) == Done(State(inner, []))
    requires Zeros(n).Keys <= inner.Keys && forall x :: x in Zeros(n) ==> inner[x] == IntV(0)
    ensures ExecBlock(p, 0, depth, Else(f), State(Zeros(n), [])) == Done(State(Zeros(n), []))
  {
    LeaveZeros(inner, n);
    var st := State(Zeros(n), []);
    assert Exec(p, 0, depth, If(IntLit(0), End, f), st) == Done(st);
    assert ExecBlock(p, 0, depth, End, st) == Done(st);
  }

  lemma LastExec(p: Program, depth: nat, k: nat)
    ensures ExecBlock(p, 0, depth, Last(k), State(Zeros(k), [])) == Done(State(Zeros(k)[Name(k) := IntV(7)], []))
  {
    SetExec(p, depth, k, 7);
    hide Exec;
    var st := State(Zeros(k)[Name(k) := IntV(7)], []);
    assert ExecBlock(p, 0, depth, End, st) == Done(st);
  }

  /** The first variable keeps its zero. */
  lemma CrowdExec(p: Program, depth: nat, k: nat)
    ensures ExecBlock(p, 0, depth, Crowd(k), State(map[], [])) == Done(State(Zeros(k), []))
  {
    hide ExecBlock, Zeros, Else, Last;
    NoZeros();
    FreshExec(p, depth, 0, k, Else(Inner(k)));
    FreshExec(p, depth, k, k, Else(Last(2 * k)));
    LastExec(p, depth, 2 * k);
    ZerosAre(2 * k);
    ZerosAre(k);
    ZerosGrow(k, 2 * k);
    assert |Name(2 * k)| == 2 * k + 1;
    ElseExec(p, depth, 2 * k, Last(2 * k), Zeros(2 * k)[Name(2 * k) := IntV(7)]);
    ElseExec(p, depth, k, Inner(k), Zeros(2 * k));
  }

  lemma NoZeros()
    ensures Zeros(0) == map[]
  {
  }

  // ---- what it compiles to ----

  function SetBytes(i: nat, c: int32): seq<byte> { Encode(IConst(c)) + Encode(SaveInstr(TInt, i)) }

  function FreshBytes(i: nat, n: nat): seq<byte>
    decreases n
  {
    if n == 0 then [] else SetBytes(i, 0) + FreshBytes(i + 1, n - 1)
  }

  lemma {:induction false} FreshWidth(i: nat, n: nat)
    ensures |FreshBytes(i, n)| == 7 * n
    decreases n
  {
    if n > 0 { FreshWidth(i + 1, n - 1); }
  }

  /** A scope with exactly the first `n` variables, of which its own begin at `off`. */
  ghost predicate Holds(sc: Scope, n: nat, off: nat) {
    sc.vars == Vars(n) && sc.off == off <= n && sc.cap == 0x80 && sc.vmax == n
  }

  lemma SetCode(sc: Scope, i: nat, off: nat, c: int32)
    requires Holds(sc, i, off) && i < off + 0x80
    ensures var r := AssignCode(sc, Name(i), IntLit(c));
            r.SCode? && r.code == SetBytes(i, c) && Holds(r.sc, i + 1, off)
  {
    assert forall j :: 0 <= j < i ==> |Vars(i)[j].name| < |Name(i)|;
    hide Encode;
    assert Vars(i) + [Var(Name(i), TInt)] == Vars(i + 1);
  }

  /** `b` is `bytes` in front of what `rest` is in `sc'`. */
  ghost predicate Prefixes(g: Globals, sc: Scope, b: Block, bytes: seq<byte>, sc': Scope, rest: Block)
    requires g.Ok() && sc.off <= |sc.vars| && sc'.off <= |sc'.vars|
  {
    var r' := BlockCode(g, sc', rest);
    && (r'.SCode? ==> BlockCode(g, sc, b) == SCode(bytes + r'.code, r'.sc))
    && (FitsBlock(g, sc', rest) ==> FitsBlock(g, sc, b))
  }

  lemma PrefixNothing(g: Globals, sc: Scope, b: Block)
    requires g.Ok() && sc.off <= |sc.vars|
    ensures Prefixes(g, sc, b, [], sc, b)
  {
    var r := BlockCode(g, sc, b);
    if r.SCode? { assert [] + r.code == r.code; }
  }

  lemma PrefixMore(g: Globals, sc: Scope, b: Block, bytes: seq<byte>, sc1: Scope, b1: Block, bytes1: seq<byte>,
                   sc2: Scope, b2: Block)
    requires g.Ok() && sc.off <= |sc.vars| && sc1.off <= |sc1.vars| && sc2.off <= |sc2.vars|
    requires Prefixes(g, sc, b, bytes, sc1, b1) && Prefixes(g, sc1, b1, bytes1, sc2, b2)
    ensures Prefixes(g, sc, b, bytes + bytes1, sc2, b2)
  {
    hide BlockCode, FitsBlock;
    var r := BlockCode(g, sc2, b2);
    if r.SCode? { assert bytes + (bytes1 + r.code) == bytes + bytes1 + r.code; }
  }

  /** The first of several new variables. */
  lemma FreshFirst(g: Globals, sc: Scope, i: nat, n: nat, off: nat, rest: Block) returns (sc1: Scope)
    requires g.Ok() && Holds(sc, i, off) && i + n <= off + 0x80 && n > 0
    ensures Holds(sc1, i + 1, off) && sc.off <= |sc.vars| && sc1.off <= |sc1.vars|
    ensures Prefixes(g, sc, Fresh(i, n, rest), SetBytes(i, 0), sc1, Fresh(i + 1, n - 1, rest))
    ensures FreshBytes(i, n) == SetBytes(i, 0) + FreshBytes(i + 1, n - 1)
  {
    SetCode(sc, i, off, 0);
    AssignFirst(g, sc, Name(i), IntLit(0), Fresh(i + 1, n - 1, rest));
    hide AssignCode, SetBytes, BlockCode, FitsBlock;
    sc1 := AssignCode(sc, Name(i), IntLit(0)).sc;
  }

  lemma FreshNone(g: Globals, sc: Scope, i: nat, off: nat, rest: Block)
    requires g.Ok() && Holds(sc, i, off)
    ensures sc.off <= |sc.vars| && Prefixes(g, sc, Fresh(i, 0, rest), FreshBytes(i, 0), sc, rest)
  {
    PrefixNothing(g, sc, rest);
  }

  lemma {:induction false} FreshCode(g: Globals, sc: Scope, i: nat, n: nat, off: nat, rest: Block) returns (sc': Scope)
    requires g.Ok() && Holds(sc, i, off) && i + n <= off + 0x80
    ensures Holds(sc', i + n, off) && sc.off <= |sc.vars| && sc'.off <= |sc'.vars|
    ensures Prefixes(g, sc, Fresh(i, n, rest), FreshBytes(i, n), sc', rest)
    decreases n
  {
    hide *;
    if n == 0 {
      sc' := sc;
      FreshNone(g, sc, i, off, rest);
    } else {
      var sc1 := FreshFirst(g, sc, i, n, off, rest);
      var tail := Fresh(i + 1, n - 1, rest);
      sc' := FreshCode(g, sc1, i + 1, n - 1, off, rest);
      PrefixMore(g, sc, Fresh(i, n, rest), SetBytes(i, 0), sc1, tail, FreshBytes(i + 1, n - 1), sc', rest);
    }
  }

  /** A block that begins with an assignment. */
  lemma AssignFirst(g: Globals, sc: Scope, x: string, e: Expr, tail: Block)
    requires g.Ok() && sc.off <= |sc.vars| && AssignCode(sc, x, e).SCode?
    ensures var (a, b) := (AssignCode(sc, x, e), Then(Assign(x, e), tail));
            var rest := BlockCode(g, a.sc, tail);
            && (rest.SCode? ==> BlockCode(g, sc, b) == SCode(a.code + rest.code, rest.sc))
            && (FitsBlock(g, a.sc, tail) ==> FitsBlock(g, sc, b))
  {
    hide AssignCode;
    assert StmtCode(g, sc, Assign(x, e)) == AssignCode(sc, x, e);
  }

  lemma LastCode(g: Globals, sc: Scope, k: nat, off: nat)
    requires g.Ok() && Holds(sc, k, off) && k < off + 0x80
    ensures var r := BlockCode(g, sc, Last(k));
            r.SCode? && r.code == SetBytes(k, 7) && |r.code| == 7 && r.sc.vmax == k + 1 && FitsBlock(g, sc, Last(k))
  {
    SetCode(sc, k, off, 7);
    hide AssignCode, Encode;
    var s := Assign(Name(k), IntLit(7));
    var r := AssignCode(sc, Name(k), IntLit(7));
    assert StmtCode(g, sc, s) == r;
    assert BlockCode(g, r.sc, End) == SCode([], r.sc);
    assert r.code + [] == r.code;
  }

  /** The scope of an `else` part. */
  function ElseScope(sc: Scope): Scope {
    var sc1 := Pushed(sc, ExprCode(sc.vars, IntLit(0)), IntLit(0));
    Child(Back(sc1, Child(sc1, sc1.ssize)), sc1.ssize)
  }

  lemma ElseHolds(sc: Scope, n: nat, off: nat)
    requires Holds(sc, n, off)
    ensures Holds(ElseScope(sc), n, n)
  {
  }

  lemma ElseCode(g: Globals, sc: Scope, f: Block)
    requires g.Ok() && sc.off <= |sc.vars|
    requires var cf := BlockCode(g, ElseScope(sc), f); cf.SCode? && |cf.code| < 0x1_0000
    requires FitsBlock(g, ElseScope(sc), f)
    ensures var (cf, r) := (BlockCode(g, ElseScope(sc), f), BlockCode(g, sc, Else(f)));
            && r.SCode? && FitsBlock(g, sc, Else(f)) && r.sc.vmax == cf.sc.vmax
            && r.code == IfBytes(Encode(IConst(0)), [], cf.code) && |r.code| == |cf.code| + 11
  {
    var s := If(IntLit(0), End, f);
    var sc1 := Pushed(sc, ExprCode(sc.vars, IntLit(0)), IntLit(0));
    var t := Child(sc1, sc1.ssize);
    assert BlockCode(g, t, End) == SCode([], t) && FitsBlock(g, t, End);
    hide BlockCode, FitsBlock, Encode, IfTail, ExprCode;
    ElseStmt(g, sc, f);
    ElseBlock(g, sc, s);
    ElseWidth(BlockCode(g, ElseScope(sc), f).code);
  }

  lemma ElseWidth(f: seq<byte>)
    requires |f| < 0x1_0000
    ensures |IfBytes(Encode(IConst(0)), [], f)| == |f| + 11
  {
    JumpWidth(3);
    JumpWidth(|f|);
    assert |Encode(IConst(0))| == 5;
    hide Encode;
  }

  lemma ElseBlock(g: Globals, sc: Scope, s: Stmt)
    requires g.Ok() && sc.off <= |sc.vars| && StmtCode(g, sc, s).SCode? && Fits(g, sc, s)
    ensures BlockCode(g, sc, Then(s, End)) == StmtCode(g, sc, s) && FitsBlock(g, sc, Then(s, End))
  {
    hide Fits;
    var r := StmtCode(g, sc, s);
    assert r.code + [] == r.code && BlockCode(g, r.sc, End) == SCode([], r.sc);
  }

  lemma ElseStmt(g: Globals, sc: Scope, f: Block)
    requires g.Ok() && sc.off <= |sc.vars|
    requires var cf := BlockCode(g, ElseScope(sc), f); cf.SCode? && |cf.code| < 0x1_0000
    requires FitsBlock(g, ElseScope(sc), f)
    ensures var (s, cf) := (If(IntLit(0), End, f), BlockCode(g, ElseScope(sc), f));
            var r := StmtCode(g, sc, s);
            && r.SCode? && Fits(g, sc, s) && r.sc.vmax == cf.sc.vmax
            && r.code == IfBytes(Encode(IConst(0)), [], cf.code)
  {
    var s := If(IntLit(0), End, f);
    var sc1 := Pushed(sc, ExprCode(sc.vars, IntLit(0)), IntLit(0));
    var t := Child(sc1, sc1.ssize);
    assert BlockCode(g, t, End) == SCode([], t) && FitsBlock(g, t, End);
    assert ExprCode(sc.vars, IntLit(0)) == ECode(Encode(IConst(0)), TInt);
    hide BlockCode, FitsBlock, Encode, IfTail, ExprCode;
    var c, ct, cf, sct, scf := IfLayout(g, sc, s);
  }

  /** The whole program compiles and fits, and asks for 2 k + 1 slots. */
  lemma CrowdCode(g: Globals, k: nat) returns (inner: seq<byte>)
    requires g.Ok() && k == 0x80
    ensures var r := BlockCode(g, FuncScope([]), Crowd(k));
            && r.SCode? && FitsBlock(g, FuncScope([]), Crowd(k)) && r.sc.vmax == 2 * k + 1
            && |inner| < 0x1_0000 && r.code == FreshBytes(0, k) + IfBytes(Encode(IConst(0)), [], inner)
            && inner == FreshBytes(k, k) + IfBytes(Encode(IConst(0)), [], SetBytes(2 * k, 7))
  {
    hide BlockCode, FitsBlock, Encode, Fresh, Else, Last, FreshBytes, SetBytes, ElseScope;
    var sc := FuncScope([]);
    assert ParamVars([]) == [] && Vars(0) == [] && Holds(sc, 0, 0);
    var sc1 := FreshCode(g, sc, 0, k, 0, Else(Inner(k)));
    ElseHolds(sc1, k, 0);
    var sc2 := FreshCode(g, ElseScope(sc1), k, k, k, Else(Last(2 * k)));
    ElseHolds(sc2, 2 * k, k);
    LastCode(g, ElseScope(sc2), 2 * k, 2 * k);
    ElseCode(g, sc2, Last(2 * k));
    FreshWidth(k, k);
    inner := BlockCode(g, ElseScope(sc1), Inner(k)).code;
    ElseCode(g, sc1, Inner(k));
  }

  // ---- what its code does ----

  lemma SetRun(m: Vm, i: nat, c: int32, d: Data)
    requires Room(m, d, 1) && i % 0x100 < |d.locals|
    ensures Fares(m, SetBytes(i, c), d, 2, Ends(d.(locals := d.locals[i % 0x100 := Some(IntV(c))])))
  {
    hide Fares, Encode;
    PushRun(m, IConst(c), d, IntV(c));
    SaveRun(m, d, IntV(c), i % 0x100);
    assert SaveInstr(TInt, i) == SaveInstr(TInt, i % 0x100);
    Sequence(m, Encode(IConst(c)), Encode(SaveInstr(TInt, i)), d, 1, WithTop(d, IntV(c)), 1,
             Ends(d.(locals := d.locals[i % 0x100 := Some(IntV(c))])));
  }

  lemma {:induction false} FreshRun(m: Vm, i: nat, n: nat, d: Data) returns (d': Data)
    requires Room(m, d, 1) && |d.locals| >= 0x100
    ensures Fares(m, FreshBytes(i, n), d, 2 * n, Ends(d')) && d' == d.(locals := d'.locals) && |d'.locals| == |d.locals|
    decreases n
  {
    hide Fares, SetBytes;
    if n == 0 {
      d' := d;
      EmptyRun(m, d);
    } else {
      SetRun(m, i, 0, d);
      var d1 := d.(locals := d.locals[i % 0x100 := Some(IntV(0))]);
      d' := FreshRun(m, i + 1, n - 1, d1);
      Sequence(m, SetBytes(i, 0), FreshBytes(i + 1, n - 1), d, 2, d1, 2 * (n - 1), Ends(d'));
    }
  }

  lemma ElseRun(m: Vm, f: seq<byte>, d: Data, n: nat, d': Data) returns (n': nat)
    requires Room(m, d, 1) && |f| < 0x1_0000 && Fares(m, f, d, n, Ends(d'))
    ensures Fares(m, IfBytes(Encode(IConst(0)), [], f), d, n', Ends(d'))
  {
    hide Fares, Encode, IfBytes;
    PushRun(m, IConst(0), d, IntV(0));
    n' := IfFalse(m, Encode(IConst(0)), [], f, d, 1, n, Ends(d'));
  }

  /** A function with 257 variables in nested scopes, which the compiler accepts and
      which is within every other limit: the program leaves 0 in its first variable,
      the code leaves 7 there, because the last one has the same slot byte. */
  lemma TooManyVariables(p: Program, m: Vm, g: Globals, depth: nat, d: Data, k: nat) returns (n: nat, d': Data)
    requires g.Ok() && k == 0x80 && |d.locals| == 2 * k + 1 && Room(m, d, 1)
    ensures var r := BlockCode(g, FuncScope([]), Crowd(k));
            && r.SCode? && FitsBlock(g, FuncScope([]), Crowd(k)) && r.sc.vmax == 0x101
            && Lookup(r.sc.vars, Name(0)) == Some(0) && Fares(m, r.code, d, n, Ends(d'))
    ensures |d'.locals| > 0 && d'.locals[0] == Some(IntV(7))
    ensures var o := ExecBlock(p, 0, depth, Crowd(k), State(map[], []));
            o.Done? && Name(0) in o.st.store && o.st.store[Name(0)] == IntV(0)
  {
    hide *;
    CrowdExec(p, depth, k);
    FirstIsZero(k);
    var inner := CrowdCode(g, k);
    FirstHasSlotZero(g, k);
    n, d' := CrowdRun(m, k, inner, d);
  }

  lemma FirstIsZero(k: nat)
    requires k > 0
    ensures Name(0) in Zeros(k) && Zeros(k)[Name(0)] == IntV(0)
  {
    ZerosAre(k);
  }

  lemma FirstHasSlotZero(g: Globals, k: nat)
    requires g.Ok() && k == 0x80 && BlockCode(g, FuncScope([]), Crowd(k)).SCode?
    ensures Lookup(BlockCode(g, FuncScope([]), Crowd(k)).sc.vars, Name(0)) == Some(0)
  {
    hide BlockCode, Fresh, Else, AssignCode;
    assert ParamVars([]) == [] && Vars(0) == [] && Holds(FuncScope([]), 0, 0);
    SetCode(FuncScope([]), 0, 0, 0);
    FirstStays(g, k);
  }

  lemma FirstStays(g: Globals, k: nat)
    requires g.Ok() && k > 0 && BlockCode(g, FuncScope([]), Crowd(k)).SCode?
    requires var r := AssignCode(FuncScope([]), Name(0), IntLit(0)); r.SCode? && r.sc.vars == Vars(1)
    ensures Lookup(BlockCode(g, FuncScope([]), Crowd(k)).sc.vars, Name(0)) == Some(0)
  {
    hide AssignCode, Else;
    var s := Assign(Name(0), IntLit(0));
    assert Crowd(k) == Then(s, Fresh(1, k - 1, Else(Inner(k))));
    assert StmtCode(g, FuncScope([]), s) == AssignCode(FuncScope([]), Name(0), IntLit(0));
    var vars := BlockCode(g, FuncScope([]), Crowd(k)).sc.vars;
    assert Vars(1) <= vars && vars[0] == Vars(1)[0];
  }

  lemma CrowdRun(m: Vm, k: nat, inner: seq<byte>, d: Data) returns (n: nat, d': Data)
    requires k == 0x80 && |d.locals| == 2 * k + 1 && Room(m, d, 1) && |inner| < 0x1_0000
    requires inner == FreshBytes(k, k) + IfBytes(Encode(IConst(0)), [], SetBytes(2 * k, 7))
    ensures Fares(m, FreshBytes(0, k) + IfBytes(Encode(IConst(0)), [], inner), d, n, Ends(d'))
    ensures |d'.locals| > 0 && d'.locals[0] == Some(IntV(7))
  {
    hide Fares, IfBytes, Encode, FreshBytes, SetBytes;
    var zero := Encode(IConst(0));
    var d1 := FreshRun(m, 0, k, d);
    var d2 := FreshRun(m, k, k, d1);
    SetRun(m, 2 * k, 7, d2);
    d' := d2.(locals := d2.locals[0 := Some(IntV(7))]);
    SetWidth(2 * k);
    var n1 := ElseRun(m, SetBytes(2 * k, 7), d2, 2, d');
    Sequence(m, FreshBytes(k, k), IfBytes(zero, [], SetBytes(2 * k, 7)), d1, 2 * k, d2, n1, Ends(d'));
    var n2 := ElseRun(m, inner, d1, 2 * k + n1, d');
    Sequence(m, FreshBytes(0, k), IfBytes(zero, [], inner), d, 2 * k, d1, n2, Ends(d'));
    n := 2 * k + n2;
  }

  lemma SetWidth(i: nat)
    ensures |SetBytes(i, 7)| == 7
  {
  }
}
