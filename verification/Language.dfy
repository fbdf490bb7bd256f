/** What programs mean, independently of slots, bytes and stacks: a definitional
    interpreter over named variables. It is dynamically typed; an int meeting a
    float is promoted. */
module Language {
  import opened Words
  import opened Ast

  datatype Value = IntV(i: int32) | FltV(f: Float)

  /** Single-precision arithmetic is left uninterpreted. */
  datatype FloatOps = FloatOps(
    add: (Float, Float) -> Float,
    sub: (Float, Float) -> Float,
    mul: (Float, Float) -> Float,
    div: (Float, Float) -> Float,
    ofInt: int32 -> Float)

  /** Ways to go wrong. `Arith` is a division the hardware refuses, `Confused` a
      value used at the wrong type, `Panic` a dispatch of the panic handler,
      `CallDepth` an exhausted call stack, `Memory` an access outside the frame,
      `Unbound` a name or a slot without a value, `Truncated` an instruction whose
      operand bytes lie beyond the code. */
  datatype Fault = Arith | Confused | Panic | CallDepth | Memory | Unbound | Truncated

  /** The faults that are the program's own. The others would be the compiler's. */
  predicate Sane(why: Fault) {
    why.Arith? || why.Confused? || why.Panic? || why.CallDepth?
  }

  datatype Eval = Val(v: Value) | Err(why: Fault)

  type Store = map<string, Value>

  datatype State = State(store: Store, pushed: seq<Value>)

  datatype Outcome = Done(st: State) | Crash(why: Fault) | Timeout

  datatype Program = Program(fl: FloatOps, funcs: map<string, FuncDecl>)

  function Bool(b: bool): int32 { if b then 1 else 0 }

  function TyOf(v: Value): Ty { if v.IntV? then TInt else TFlt }

  function Promote(fl: FloatOps, v: Value): Value {
    if v.IntV? then FltV(fl.ofInt(v.i)) else v
  }

  /** 32-bit integer operators; `None` where the division traps. */
  function IntOp(op: BinOp, a: int32, b: int32): Option<int32> {
    match op
    case Add => Some(Wrap(a + b))
    case Sub => Some(Wrap(a - b))
    case Mul => Some(Wrap(a * b))
    case Div => if b == 0 || (a == INT32_MIN && b == -1) then None else Some(Wrap(TruncDiv(a, b)))
    case Eq => Some(Bool(a == b))
    case Ne => Some(Bool(a != b))
    case Lt => Some(Bool(a < b))
    case Le => Some(Bool(a <= b))
    case Gt => Some(Bool(a > b))
    case Ge => Some(Bool(a >= b))
  }

  function FltOp(fl: FloatOps, op: BinOp, a: Float, b: Float): Float
    requires !IsComparison(op)
  {
    match op
    case Add => fl.add(a, b)
    case Sub => fl.sub(a, b)
    case Mul => fl.mul(a, b)
    case Div => fl.div(a, b)
  }

  function Apply(fl: FloatOps, op: BinOp, a: Value, b: Value): Eval {
    if a.IntV? && b.IntV? then
      match IntOp(op, a.i, b.i)
      case Some(r) => Val(IntV(r))
      case None => Err(Arith)
    else if IsComparison(op) then
      Err(Confused)
    else
      Val(FltV(FltOp(fl, op, Promote(fl, a).f, Promote(fl, b).f)))
  }

  function EvalExpr(fl: FloatOps, store: Store, e: Expr): Eval {
    match e
    case IntLit(i) => Val(IntV(i))
    case FltLit(f) => Val(FltV(f))
    case Ident(x, _) => if x in store then Val(store[x]) else Err(Unbound)
    case Group(inner, _) => EvalExpr(fl, store, inner)
    case Neg(operand, _) =>
      // unary minus has an opcode but no handler
      var v := EvalExpr(fl, store, operand);
      if v.Val? then Err(Panic) else v
    case Binary(op, l, r, _) =>
      var a := EvalExpr(fl, store, l);
      if a.Err? then a else
        var b := EvalExpr(fl, store, r);
        if b.Err? then b else Apply(fl, op, a.v, b.v)
    case Cast(operand) =>
      var v := EvalExpr(fl, store, operand);
      if v.Err? then v else Val(Promote(fl, v.v))
  }

  /** Arguments are evaluated left to right. */
  function EvalArgs(fl: FloatOps, store: Store, args: seq<Expr>): (r: (seq<Value>, Option<Fault>))
    ensures r.1.None? ==> |r.0| == |args|
  {
    if args == [] then ([], None) else
      match EvalExpr(fl, store, args[0])
      case Err(why) => ([], Some(why))
      case Val(v) =>
        var rest := EvalArgs(fl, store, args[1..]);
        ([v] + rest.0, rest.1)
  }

  /** Leaving a scope forgets the variables it introduced. */
  function Leave(inner: Store, outer: Store): Store {
    map x | x in outer && x in inner :: inner[x]
  }

  /** A variable keeps the type of its first value: an int stored into a float
      variable is promoted, a float does not fit an int variable. */
  function Update(fl: FloatOps, store: Store, x: string, v: Value): Option<Store> {
    if x !in store || TyOf(store[x]) == TyOf(v) then Some(store[x := v])
    else if v.IntV? then Some(store[x := Promote(fl, v)])
    else None
  }

  /** A bare name that denotes nothing. */
  predicate Valueless(names: set<string>, e: Expr) {
    match e
    case Ident(x, _) => x !in names
    case Group(inner, _) => Valueless(names, inner)
    case Neg(operand, _) => Valueless(names, operand)
    case Cast(operand) => Valueless(names, operand)
    case _ => false
  }

  function BindParams(params: seq<Param>, vs: seq<Value>): (store: Store)
    requires |params| == |vs|
  {
    if params == [] then map[]
    else BindParams(params[..|params| - 1], vs[..|vs| - 1])[params[|params| - 1].name := vs[|vs| - 1]]
  }

  /** `fuel` bounds loop iterations and calls, `depth` the calls that may still
      be open at once. A value nobody consumes stays in `pushed`: bare
      expressions and call arguments are never popped. */
  function Exec(p: Program, fuel: nat, depth: nat, s: Stmt, st: State): Outcome
    decreases fuel, s
  {
    match s
    case Assign(x, e) =>
      (match EvalExpr(p.fl, st.store, e)
       case Err(why) => Crash(why)
       case Val(v) =>
         match Update(p.fl, st.store, x, v)
         case None => Crash(Confused)
         case Some(store) => Done(st.(store := store)))
    case Bare(e) =>
      if Valueless(st.store.Keys, e) then Done(st) else
        (match EvalExpr(p.fl, st.store, e)
         case Err(why) => Crash(why)
         case Val(v) => Done(st.(pushed := st.pushed + [v])))
    case Call(f, args) =>
      var (vs, err) := EvalArgs(p.fl, st.store, args);
      if err.Some? then Crash(err.value)
      else if f !in p.funcs || |vs| != |p.funcs[f].params| then Crash(Panic)
      else if depth == 0 then Crash(CallDepth)
      else if fuel == 0 then Timeout
      else
        var start := State(BindParams(p.funcs[f].params, vs), []);
        (match ExecBlock(p, fuel - 1, depth - 1, p.funcs[f].body, start)
         case Done(_) => Done(st.(pushed := st.pushed + vs))
         case other => other)
    case If(c, t, f) =>
      (match EvalExpr(p.fl, st.store, c)
       case Err(why) => Crash(why)
       case Val(FltV(_)) => Crash(Confused)
       case Val(IntV(i)) => ExecScope(p, fuel, depth, if i != 0 then t else f, st))
    case While(c, body) =>
      (match EvalExpr(p.fl, st.store, c)
       case Err(why) => Crash(why)
       case Val(FltV(_)) => Crash(Confused)
       case Val(IntV(i)) =>
         if i == 0 then Done(st) else
         match ExecScope(p, fuel, depth, body, st)
         case Done(st1) => if fuel == 0 then Timeout else Exec(p, fuel - 1, depth, s, st1)
         case other => other)
  }

  function ExecBlock(p: Program, fuel: nat, depth: nat, b: Block, st: State): Outcome
    decreases fuel, b, 0
  {
    match b
    case End => Done(st)
    case Then(s, rest) =>
      match Exec(p, fuel, depth, s, st)
      case Done(st1) => ExecBlock(p, fuel, depth, rest, st1)
      case other => other
  }

  function ExecScope(p: Program, fuel: nat, depth: nat, b: Block, st: State): Outcome
    decreases fuel, b, 1
  {
    match ExecBlock(p, fuel, depth, b, st)
    case Done(st1) => Done(State(Leave(st1.store, st.store), st1.pushed))
    case other => other
  }
}
