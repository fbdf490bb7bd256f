/** How many operand words a program needs, read off its text: the most it ever has
    above the height it starts at, and the words it leaves behind. Bare expressions
    and call arguments stay on the stack, so a loop over them has no bound. */
module Needs {
  import opened Ast
  import opened Language
  import opened Codegen

  /** `most` words above the starting height at the deepest point, at most `left`
      at the end; `Unbounded` if a loop body may leave something behind. */
  datatype Need = Unbounded | Bounded(most: nat, left: nat)

  function InTurn(a: Need, b: Need): Need {
    if a.Unbounded? || b.Unbounded? then Unbounded
    else Bounded(Max(a.most, a.left + b.most), a.left + b.left)
  }

  function Either(a: Need, b: Need): Need {
    if a.Unbounded? || b.Unbounded? then Unbounded
    else Bounded(Max(a.most, b.most), Max(a.left, b.left))
  }

  function ArgsNeed(args: seq<Expr>): nat {
    if args == [] then 0 else Max(Depth(args[0]), 1 + ArgsNeed(args[1..]))
  }

  /** The names in scope after a statement, and after a block. */
  function Names(names: set<string>, s: Stmt): set<string> {
    match s
    case Assign(x, _) => names + {x}
    case _ => names
  }

  function BlockNames(names: set<string>, b: Block): set<string>
    decreases b
  {
    match b
    case End => names
    case Then(s, rest) => BlockNames(Names(names, s), rest)
  }

  /** `names` are the names in scope: a bare name outside it leaves nothing. */
  function StmtNeed(names: set<string>, s: Stmt): Need
    decreases s
  {
    match s
    case Assign(_, e) => Bounded(Depth(e), 0)
    case Bare(e) => if Valueless(names, e) then Bounded(0, 0) else Bounded(Depth(e), 1)
    case Call(_, args) => Bounded(ArgsNeed(args), |args|)
    case If(c, t, f) => InTurn(Bounded(Depth(c), 0), Either(BlockNeed(names, t), BlockNeed(names, f)))
    case While(c, body) =>
      var n := BlockNeed(names, body);
      if n.Unbounded? || n.left > 0 then Unbounded else InTurn(Bounded(Depth(c), 0), n)
  }

  function BlockNeed(names: set<string>, b: Block): Need
    decreases b
  {
    match b
    case End => Bounded(0, 0)
    case Then(s, rest) => InTurn(StmtNeed(names, s), BlockNeed(Names(names, s), rest))
  }

  /** Operand memory of `cap` words is enough from height `height` on. */
  predicate Suffices(need: Need, height: nat, cap: nat) {
    need.Bounded? && height + need.most <= cap
  }

  function ParamNames(params: seq<Param>): set<string> {
    if params == [] then {} else ParamNames(params[..|params| - 1]) + {params[|params| - 1].name}
  }

  lemma {:induction false} BindParamsKeys(params: seq<Param>, vs: seq<Value>)
    requires |params| == |vs|
    ensures BindParams(params, vs).Keys == ParamNames(params)
  {
    if params != [] {
      BindParamsKeys(params[..|params| - 1], vs[..|vs| - 1]);
    }
  }

  lemma {:induction false} NamesGrow(names: set<string>, b: Block)
    ensures names <= BlockNames(names, b)
    decreases b
  {
    if b.Then? {
      NamesGrow(Names(names, b.head), b.tail);
    }
  }

  // ---- what is left behind ----

  ghost predicate LeavesAtMost(need: Need, st: State, st': State) {
    need.Bounded? ==> |st'.pushed| <= |st.pushed| + need.left
  }

  lemma UpdateKeys(fl: FloatOps, store: Store, x: string, v: Value)
    ensures Update(fl, store, x, v).Some? ==> Update(fl, store, x, v).value.Keys == store.Keys + {x}
  {
  }

  /** A finished statement has the names and leaves no more words than its text says. */
  lemma {:induction false} ExecLeaves(p: Program, fuel: nat, depth: nat, s: Stmt, st: State)
    requires Exec(p, fuel, depth, s, st).Done?
    ensures var st' := Exec(p, fuel, depth, s, st).st;
            st'.store.Keys == Names(st.store.Keys, s) && LeavesAtMost(StmtNeed(st.store.Keys, s), st, st')
    decreases fuel, s, 0
  {
    hide EvalExpr, Depth, Valueless;
    match s
    case Assign(x, e) => UpdateKeys(p.fl, st.store, x, EvalExpr(p.fl, st.store, e).v);
    case Bare(_) =>
    case Call(_, args) => hide EvalArgs, ExecBlock;
    case If(c, t, f) =>
      hide ExecScope;
      ScopeLeaves(p, fuel, depth, if EvalExpr(p.fl, st.store, c).v.i != 0 then t else f, st);
    case While(c, body) =>
      hide ExecScope;
      if EvalExpr(p.fl, st.store, c).v.i != 0 {
        ScopeLeaves(p, fuel, depth, body, st);
        ExecLeaves(p, fuel - 1, depth, s, ExecScope(p, fuel, depth, body, st).st);
      }
  }

  lemma {:induction false} ScopeLeaves(p: Program, fuel: nat, depth: nat, b: Block, st: State)
    requires ExecScope(p, fuel, depth, b, st).Done?
    ensures var st' := ExecScope(p, fuel, depth, b, st).st;
            st'.store.Keys == st.store.Keys && LeavesAtMost(BlockNeed(st.store.Keys, b), st, st')
    decreases fuel, b, 1
  {
    BlockLeaves(p, fuel, depth, b, st);
    NamesGrow(st.store.Keys, b);
  }

  lemma {:induction false} BlockLeaves(p: Program, fuel: nat, depth: nat, b: Block, st: State)
    requires ExecBlock(p, fuel, depth, b, st).Done?
    ensures var st' := ExecBlock(p, fuel, depth, b, st).st;
            st'.store.Keys == BlockNames(st.store.Keys, b) && LeavesAtMost(BlockNeed(st.store.Keys, b), st, st')
    decreases fuel, b, 0
  {
    hide Exec, StmtNeed, Names;
    if b.Then? {
      ExecLeaves(p, fuel, depth, b.head, st);
      BlockLeaves(p, fuel, depth, b.tail, Exec(p, fuel, depth, b.head, st).st);
    }
  }

  // ---- what a run uses ----

  /** The most words on the operand stack at any time while a statement runs. */
  function High(p: Program, fuel: nat, depth: nat, s: Stmt, st: State): nat
    decreases fuel, s, 0
  {
    match s
    case Assign(_, e) => |st.pushed| + Depth(e)
    case Bare(e) => if Valueless(st.store.Keys, e) then |st.pushed| else |st.pushed| + Depth(e)
    case Call(_, args) => |st.pushed| + ArgsNeed(args)
    case If(c, t, f) =>
      Max(|st.pushed| + Depth(c),
          match EvalExpr(p.fl, st.store, c)
          case Val(IntV(i)) => HighBlock(p, fuel, depth, if i != 0 then t else f, st)
          case _ => 0)
    case While(c, body) =>
      Max(|st.pushed| + Depth(c),
          match EvalExpr(p.fl, st.store, c)
          case Val(IntV(i)) => if i == 0 then 0 else HighLoop(p, fuel, depth, s, st)
          case _ => 0)
  }

  /** One iteration, and what comes after it. */
  function HighLoop(p: Program, fuel: nat, depth: nat, s: Stmt, st: State): nat
    requires s.While?
    decreases fuel, s.body, 1
  {
    Max(HighBlock(p, fuel, depth, s.body, st),
        match ExecScope(p, fuel, depth, s.body, st)
        case Done(st1) => if fuel == 0 then 0 else High(p, fuel - 1, depth, s, st1)
        case _ => 0)
  }

  function HighBlock(p: Program, fuel: nat, depth: nat, b: Block, st: State): nat
    decreases fuel, b, 0
  {
    match b
    case End => |st.pushed|
    case Then(s, rest) =>
      Max(High(p, fuel, depth, s, st),
          match Exec(p, fuel, depth, s, st)
          case Done(st1) => HighBlock(p, fuel, depth, rest, st1)
          case _ => 0)
  }

  /** No run uses more than its text says. */
  lemma {:induction false} HighWithin(p: Program, fuel: nat, depth: nat, s: Stmt, st: State)
    ensures var need := StmtNeed(st.store.Keys, s);
            need.Bounded? ==> High(p, fuel, depth, s, st) <= |st.pushed| + need.most
    decreases fuel, s, 0
  {
    hide EvalExpr, Depth, Valueless, ArgsNeed, Exec;
    match s
    case If(c, t, f) =>
      hide ExecScope, HighBlock, BlockNeed;
      HighBlockWithin(p, fuel, depth, t, st);
      HighBlockWithin(p, fuel, depth, f, st);
    case While(c, body) =>
      hide ExecScope, HighBlock, BlockNeed;
      HighBlockWithin(p, fuel, depth, body, st);
      var o := ExecScope(p, fuel, depth, body, st);
      if o.Done? && fuel > 0 {
        ScopeLeaves(p, fuel, depth, body, st);
        HighWithin(p, fuel - 1, depth, s, o.st);
      }
    case _ =>
  }

  lemma {:induction false} HighBlockWithin(p: Program, fuel: nat, depth: nat, b: Block, st: State)
    ensures var need := BlockNeed(st.store.Keys, b);
            need.Bounded? ==> HighBlock(p, fuel, depth, b, st) <= |st.pushed| + need.most
    decreases fuel, b, 1
  {
    hide Exec, High, StmtNeed, Names;
    if b.Then? {
      HighWithin(p, fuel, depth, b.head, st);
      var o := Exec(p, fuel, depth, b.head, st);
      if o.Done? {
        ExecLeaves(p, fuel, depth, b.head, st);
        HighBlockWithin(p, fuel, depth, b.tail, o.st);
      }
    }
  }

  // ---- programs that leave nothing ----

  /** Statements that leave the operand stack as they found it: assignments and
      control flow over them. */
  predicate Neutral(s: Stmt) {
    match s
    case Assign(_, _) => true
    case If(_, t, f) => NeutralBlock(t) && NeutralBlock(f)
    case While(_, body) => NeutralBlock(body)
    case _ => false
  }

  predicate NeutralBlock(b: Block) {
    match b
    case End => true
    case Then(s, rest) => Neutral(s) && NeutralBlock(rest)
  }

  /** They do leave it: the stack is back at its starting height, with the same words. */
  lemma {:induction false} NeutralKeeps(p: Program, fuel: nat, depth: nat, s: Stmt, st: State)
    requires Neutral(s) && Exec(p, fuel, depth, s, st).Done?
    ensures Exec(p, fuel, depth, s, st).st.pushed == st.pushed
    decreases fuel, s, 0
  {
    hide EvalExpr;
    match s
    case Assign(_, _) =>
    case If(c, t, f) =>
      NeutralKeepsBlock(p, fuel, depth, if EvalExpr(p.fl, st.store, c).v.i != 0 then t else f, st);
    case While(c, body) =>
      if EvalExpr(p.fl, st.store, c).v.i != 0 {
        NeutralKeepsBlock(p, fuel, depth, body, st);
        NeutralKeeps(p, fuel - 1, depth, s, ExecScope(p, fuel, depth, body, st).st);
      }
  }

  lemma {:induction false} NeutralKeepsBlock(p: Program, fuel: nat, depth: nat, b: Block, st: State)
    requires NeutralBlock(b) && ExecBlock(p, fuel, depth, b, st).Done?
    ensures ExecBlock(p, fuel, depth, b, st).st.pushed == st.pushed
    decreases fuel, b, 1
  {
    if b.Then? {
      hide Exec;
      NeutralKeeps(p, fuel, depth, b.head, st);
      NeutralKeepsBlock(p, fuel, depth, b.tail, Exec(p, fuel, depth, b.head, st).st);
    }
  }

  // ---- what the compiler records ----

  /** The recorded stack size covers the need, from height `height` on: loops leave
      nothing and are entered at height zero, branches leave at most the one word
      that the condition is counted for. */
  predicate Recorded(names: set<string>, s: Stmt, height: nat)
    decreases s
  {
    match s
    case If(_, t, f) =>
      && RecordedBlock(names, t, height) && RecordedBlock(names, f, height)
      && BlockNeed(names, t).Bounded? && BlockNeed(names, t).left <= 1
      && BlockNeed(names, f).Bounded? && BlockNeed(names, f).left <= 1
    case While(_, body) =>
      height == 0 && RecordedBlock(names, body, 0) && BlockNeed(names, body).Bounded?
          && BlockNeed(names, body).left == 0
    case _ => true
  }

  predicate RecordedBlock(names: set<string>, b: Block, height: nat)
    decreases b
  {
    match b
    case End => true
    case Then(s, rest) =>
      && Recorded(names, s, height) && StmtNeed(names, s).Bounded?
      && RecordedBlock(Names(names, s), rest, height + StmtNeed(names, s).left)
  }
}
