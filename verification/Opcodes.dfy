/** The operators and the instruction set told by their opcode bytes: what each
    operator computes, what one step at each opcode byte does, and which bytes
    statements are compiled to. */
module Opcodes {
  import opened Words
  import opened Ast
  import opened Language
  import opened Bytecode
  import opened Machine
  import opened Runs
  import opened Codegen
  import opened ExprCorrect

  // ---- int arithmetic ----

  predicate Congruent(x: int, y: int) { (x - y) % 0x1_0000_0000 == 0 }

  /** `q` is the quotient of `a` by `b`: what remains is smaller than `b` and is zero or has
      the sign of `a`. */
  predicate Quotient(a: int, b: int, q: int) {
    var r := a - q * b;
    && -Abs(b) < r < Abs(b)
    && (r == 0 || (r < 0 <==> a < 0))
  }

  function Abs(x: int): int { if x < 0 then -x else x }

  /** Wrapping is the one way to stay congruent inside 32 bits. */
  lemma WrapExact(x: int, r: int32)
    ensures r == Wrap(x) <==> Congruent(r, x)
  {
  }

  lemma Multiple(k: int, n: int)
    requires n > 0
    ensures k >= 1 ==> k * n >= n
    ensures k <= -1 ==> k * n <= -n
  {
    if k >= 1 { AtLeast(k, n); }
    if k <= -1 { AtLeast(-k, n); }
  }

  /** Truncating division is the one quotient. */
  lemma TruncDivExact(a: int, b: int, q: int)
    requires b != 0
    ensures q == TruncDiv(a, b) <==> Quotient(a, b, q)
  {
    TruncDivIs(a, b);
    if Quotient(a, b, q) { OneQuotient(a, b, q, TruncDiv(a, b)); }
  }

  lemma OneQuotient(a: int, b: int, q: int, t: int)
    requires b != 0 && Quotient(a, b, q) && Quotient(a, b, t)
    ensures q == t
  {
    var x, y := q * b, t * b;
    assert -Abs(b) < x - y < Abs(b);
    if b > 0 {
      assert (q - t) * b == x - y;
      Multiple(q - t, b);
    } else {
      assert (t - q) * (-b) == x - y;
      Multiple(t - q, -b);
    }
  }

  lemma TruncDivIs(a: int, b: int)
    requires b != 0
    ensures Quotient(a, b, TruncDiv(a, b))
  {
    if a >= 0 {
      assert a == b * (a / b) + a % b;
    } else {
      var p := (-a) / b;
      assert -a == b * p + (-a) % b;
      assert (-p) * b == -(b * p);
    }
  }

  /** Sums, differences and products are the exact ones modulo two to the 32nd. */
  lemma IntArithmetic(a: int32, b: int32, r: int32)
    ensures IntOp(Add, a, b) == Some(r) <==> Congruent(r, a + b)
    ensures IntOp(Sub, a, b) == Some(r) <==> Congruent(r, a - b)
    ensures IntOp(Mul, a, b) == Some(r) <==> Congruent(r, a * b)
  {
    WrapExact(a + b, r);
    WrapExact(a - b, r);
    WrapExact(a * b, r);
    hide Wrap, Congruent;
  }

  /** A quotient that fits 32 bits is delivered; there is none by zero, and none that fits for
      the least int by minus one. */
  lemma IntDivision(a: int32, b: int32, q: int32)
    ensures IntOp(Div, a, b) == Some(q) <==> b != 0 && Quotient(a, b, q)
    ensures IntOp(Div, a, b).None? <==> b == 0 || (a == -0x8000_0000 && b == -1)
  {
    if b != 0 {
      TruncDivExact(a, b, q);
      TruncDivIs(a, b);
      Fits32(a, b, TruncDiv(a, b));
    }
  }

  lemma Fits32(a: int32, b: int32, q: int)
    requires b != 0 && Quotient(a, b, q)
    ensures -0x8000_0000 <= q < 0x8000_0000 <==> !(a == -0x8000_0000 && b == -1)
    ensures -0x8000_0000 <= q < 0x8000_0000 ==> Wrap(q) == q
  {
    if q > 0 { AtLeast(Abs(b), q); }
  }

  /** One of less, equal and greater holds, the others are their negations, and less means a
      positive difference. */
  lemma IntComparison(a: int32, b: int32)
    ensures IntOp(Lt, a, b) == Some(if b - a > 0 then 1 else 0)
    ensures var (lt, eq, gt) := (IntOp(Lt, a, b), IntOp(Eq, a, b), IntOp(Gt, a, b));
            && lt.Some? && eq.Some? && gt.Some? && lt.value + eq.value + gt.value == 1
            && lt.value >= 0 && eq.value >= 0 && gt.value >= 0
            && IntOp(Gt, a, b) == IntOp(Lt, b, a) && IntOp(Eq, a, b) == IntOp(Eq, b, a)
            && IntOp(Le, a, b) == Some(1 - gt.value)
            && IntOp(Ge, a, b) == Some(1 - lt.value)
            && IntOp(Ne, a, b) == Some(1 - eq.value)
  {
  }

  /** `r` is what the operator makes of `a` and `b`. */
  predicate Computes(op: BinOp, a: int32, b: int32, r: int32) {
    match op
    case Add => Congruent(r, a + b)
    case Sub => Congruent(r, a - b)
    case Mul => Congruent(r, a * b)
    case Div => b != 0 && Quotient(a, b, r)
    case Eq => r == if a == b then 1 else 0
    case Ne => r == if a == b then 0 else 1
    case Lt => r == if a < b then 1 else 0
    case Le => r == if b < a then 0 else 1
    case Gt => r == if b < a then 1 else 0
    case Ge => r == if a < b then 0 else 1
  }

  /** Every operator computes just that, and only division ever fails. */
  lemma IntExact(op: BinOp, a: int32, b: int32, r: int32)
    ensures IntOp(op, a, b) == Some(r) <==> Computes(op, a, b, r)
    ensures IntOp(op, a, b).None? <==> op == Div && (b == 0 || (a == -0x8000_0000 && b == -1))
  {
    IntArithmetic(a, b, r);
    IntDivision(a, b, r);
    IntComparison(a, b);
    IntComparison(b, a);
    hide Congruent, Quotient;
  }

  // ---- one step at each opcode byte ----

  /** Control is at opcode byte `b`, with its operand bytes inside the code. */
  ghost predicate Stands(s: Frames, b: byte) {
    Live(s.top) && s.top.code[s.top.pc] == b && Fetch(s.top.code, s.top.pc).Some?
  }

  /** The byte at `k` behind the opcode. */
  function Operand(s: Frames, k: nat): byte
    requires Live(s.top) && s.top.pc + k < |s.top.code|
  {
    s.top.code[s.top.pc + k]
  }

  /** The two operand bytes, high byte first. */
  function Distance(s: Frames): nat
    requires Live(s.top) && s.top.pc + 2 < |s.top.code|
  {
    Operand(s, 1) * 0x100 + Operand(s, 2)
  }

  function BigEndian(b0: int, b1: int, b2: int, b3: int): int {
    b0 * 0x100_0000 + b1 * 0x1_0000 + b2 * 0x100 + b3
  }

  /** `k` words popped, `pushed` pushed, and on by `width` bytes. */
  function Moved(s: Frames, k: nat, pushed: seq<Value>, width: int): Frames
    requires k <= |s.top.stack|
  {
    s.(top := s.top.(stack := s.top.stack[..|s.top.stack| - k] + pushed, pc := s.top.pc + width))
  }

  /** `a` and then `b` have been pushed last. */
  ghost predicate TwoOnTop(s: Frames, a: Value, b: Value) {
    var n := |s.top.stack|;
    n >= 2 && s.top.stack[n - 2] == a && s.top.stack[n - 1] == b
  }

  ghost predicate OnTop(s: Frames, v: Value) {
    s.top.stack != [] && s.top.stack[|s.top.stack| - 1] == v
  }

  /** The two topmost words are replaced by `v`. */
  ghost predicate Yields(m: Vm, s: Frames, v: Value)
    requires !Halted(s)
  {
    |s.top.stack| >= 2 && Step(m, s) == At(Moved(s, 2, [v], 1))
  }

  lemma OneByte(s: Frames, b: byte)
    requires Stands(s, b) && Width(b) == 1
    ensures Fetch(s.top.code, s.top.pc) == Some(Interpret([b]))
  {
    assert s.top.code[s.top.pc..s.top.pc + 1] == [b];
  }

  lemma OperatorStep(m: Vm, s: Frames, b: byte, x: Value, y: Value)
    requires Stands(s, b) && TwoOnTop(s, x, y) && x.IntV? && y.IntV? && IntOperator(b).Some?
    ensures match IntOp(IntOperator(b).value, x.i, y.i)
            case Some(r) => Yields(m, s, IntV(r))
            case None => Step(m, s) == Trap(Language.Fault.Arith)
  {
    hide IntOp;
    OneByte(s, b);
  }

  /** Arithmetic on the two ints on top: the deeper one is the left operand. */
  lemma IntArithmeticStep(m: Vm, s: Frames, a: int32, b: int32, r: int32)
    requires !Halted(s) && TwoOnTop(s, IntV(a), IntV(b))
    ensures Stands(s, 0x42) && Congruent(r, a + b) ==> Yields(m, s, IntV(r))
    ensures Stands(s, 0x43) && Congruent(r, a - b) ==> Yields(m, s, IntV(r))
    ensures Stands(s, 0x44) && Congruent(r, a * b) ==> Yields(m, s, IntV(r))
    ensures Stands(s, 0x45) && b != 0 && Quotient(a, b, r) ==> Yields(m, s, IntV(r))
    ensures Stands(s, 0x45) && (b == 0 || (a == -0x8000_0000 && b == -1)) ==>
              Step(m, s) == Trap(Language.Fault.Arith)
  {
    IntArithmetic(a, b, r);
    IntDivision(a, b, r);
    hide IntOp, Congruent, Quotient, Stands, Yields, Step;
    forall c: byte | Stands(s, c) && IntOperator(c).Some?
      ensures match IntOp(IntOperator(c).value, a, b)
              case Some(r) => Yields(m, s, IntV(r))
              case None => Step(m, s) == Trap(Language.Fault.Arith)
    {
      OperatorStep(m, s, c, IntV(a), IntV(b));
    }
  }

  /** Comparisons leave one or zero. */
  lemma IntComparisonStep(m: Vm, s: Frames, a: int32, b: int32)
    requires !Halted(s) && TwoOnTop(s, IntV(a), IntV(b))
    ensures Stands(s, 0x4a) ==> Yields(m, s, IntV(if a == b then 1 else 0))
    ensures Stands(s, 0x4b) ==> Yields(m, s, IntV(if a == b then 0 else 1))
    ensures Stands(s, 0x4c) ==> Yields(m, s, IntV(if a < b then 1 else 0))
    ensures Stands(s, 0x4d) ==> Yields(m, s, IntV(if b < a then 0 else 1))
    ensures Stands(s, 0x4e) ==> Yields(m, s, IntV(if b < a then 1 else 0))
    ensures Stands(s, 0x4f) ==> Yields(m, s, IntV(if a < b then 0 else 1))
  {
    IntComparison(a, b);
    IntComparison(b, a);
    hide IntOp, Stands, Yields, Step;
    forall c: byte | Stands(s, c) && IntOperator(c).Some?
      ensures match IntOp(IntOperator(c).value, a, b)
              case Some(r) => Yields(m, s, IntV(r))
              case None => Step(m, s) == Trap(Language.Fault.Arith)
    {
      OperatorStep(m, s, c, IntV(a), IntV(b));
    }
  }

  /** Arithmetic on the two floats on top, and the conversion of an int. */
  lemma FloatStep(m: Vm, s: Frames, a: Float, b: Float)
    requires !Halted(s) && TwoOnTop(s, FltV(a), FltV(b))
    ensures Stands(s, 0x50) ==> Yields(m, s, FltV(m.fl.add(a, b)))
    ensures Stands(s, 0x51) ==> Yields(m, s, FltV(m.fl.sub(a, b)))
    ensures Stands(s, 0x52) ==> Yields(m, s, FltV(m.fl.mul(a, b)))
    ensures Stands(s, 0x53) ==> Yields(m, s, FltV(m.fl.div(a, b)))
  {
    if Stands(s, 0x50) { OneByte(s, 0x50); }
    if Stands(s, 0x51) { OneByte(s, 0x51); }
    if Stands(s, 0x52) { OneByte(s, 0x52); }
    if Stands(s, 0x53) { OneByte(s, 0x53); }
  }

  lemma ConvertStep(m: Vm, s: Frames, i: int32)
    requires Stands(s, 0x47) && OnTop(s, IntV(i))
    ensures Step(m, s) == At(Moved(s, 1, [FltV(m.fl.ofInt(i))], 1))
  {
    OneByte(s, 0x47);
  }

  /** Pushing a constant: ints are written in two's complement, high byte first, floats as
      they lie in memory. */
  lemma ConstantStep(m: Vm, s: Frames, i: int32)
    requires !m.checked || |s.top.stack| < s.top.cap
    ensures Stands(s, 0x36)
            && Congruent(i, BigEndian(Operand(s, 1), Operand(s, 2), Operand(s, 3), Operand(s, 4)))
            ==> Step(m, s) == At(Moved(s, 0, [IntV(i)], 5))
    ensures Stands(s, 0x37) ==>
              Step(m, s) ==
              At(Moved(s, 0, [FltV(Float(Operand(s, 1), Operand(s, 2), Operand(s, 3), Operand(s, 4)))], 5))
  {
    if Stands(s, 0x36) { BigEndianExact(i, Operand(s, 1), Operand(s, 2), Operand(s, 3), Operand(s, 4)); }
    hide Congruent, BigEndian, FromBe32;
  }

  lemma BigEndianExact(i: int32, b0: byte, b1: byte, b2: byte, b3: byte)
    ensures Congruent(i, BigEndian(b0, b1, b2, b3)) <==> i == FromBe32(b0, b1, b2, b3)
  {
  }

  /** Loading a variable of the opcode's type ... */
  lemma LoadStep(m: Vm, s: Frames, v: Value)
    requires Stands(s, if v.IntV? then 0x32 else 0x34)
    requires Operand(s, 1) < |s.top.locals| && s.top.locals[Operand(s, 1)] == Some(v)
    requires !m.checked || |s.top.stack| < s.top.cap
    ensures Step(m, s) == At(Moved(s, 0, [v], 2))
  {
  }

  /** ... and storing one. */
  lemma SaveStep(m: Vm, s: Frames, v: Value)
    requires Stands(s, if v.IntV? then 0x33 else 0x35) && OnTop(s, v) && Operand(s, 1) < |s.top.locals|
    ensures var s1 := Moved(s, 1, [], 2);
            Step(m, s) == At(s1.(top := s1.top.(locals := s.top.locals[Operand(s, 1) := Some(v)])))
  {
  }

  /** Jumps count from behind their operand bytes, the backward one towards the start. The
      conditional ones pop an int and look whether it is zero. */
  lemma JumpStep(m: Vm, s: Frames)
    ensures Stands(s, 0x60) ==> Step(m, s) == At(Moved(s, 0, [], 3 + Distance(s)))
    ensures Stands(s, 0x61) ==> Step(m, s) == At(Moved(s, 0, [], 3 - Distance(s)))
  {
  }

  lemma BranchStep(m: Vm, s: Frames, i: int32)
    requires OnTop(s, IntV(i))
    ensures Stands(s, 0x62) ==> Step(m, s) == At(Moved(s, 1, [], 3 + if i == 0 then Distance(s) else 0))
    ensures Stands(s, 0x63) ==> Step(m, s) == At(Moved(s, 1, [], 3 + if i == 0 then 0 else Distance(s)))
  {
  }

  /** A call opens a frame whose first slots hold the arguments in order; the caller keeps
      everything, the arguments too. */
  lemma CallStep(m: Vm, s: Frames)
    requires Stands(s, 0x80) && Distance(s) in m.funcs && |s.below| + 1 < m.limit
    requires m.funcs[Distance(s)].argc <= |s.top.stack| && m.funcs[Distance(s)].argc <= m.funcs[Distance(s)].nvars
    ensures var f := m.funcs[Distance(s)];
            && Step(m, s).At?
            && var s1 := Step(m, s).s;
            && s1.below == s.below + [s.top] && s1.top.code == f.body && s1.top.pc == 0 && s1.top.stack == []
            && s1.top.cap == f.nstack && |s1.top.locals| == f.nvars
            && forall k :: 0 <= k < f.argc ==>
                 s1.top.locals[k] == Some(s.top.stack[|s.top.stack| - f.argc + k])
  {
  }

  /** At the end of its code a function returns behind the call. */
  lemma ReturnStep(m: Vm, s: Frames, caller: Frame)
    requires s.below != [] && s.below[|s.below| - 1] == caller && !(0 <= s.top.pc < |s.top.code|)
    ensures Step(m, s) == At(Frames(s.below[..|s.below| - 1], caller.(pc := caller.pc + 3)))
  {
  }

  /** Every other byte dispatches the panic handler, unary minus among them. */
  lemma PanicStep(m: Vm, s: Frames, b: byte)
    requires Stands(s, b)
    requires !(0x32 <= b <= 0x37 || 0x42 <= b <= 0x45 || b == 0x47 || 0x4a <= b <= 0x53)
    requires !(0x60 <= b <= 0x63 || b == 0x80)
    ensures Step(m, s) == Trap(Panic)
  {
    OneByte(s, b);
  }

  // ---- what the compiler emits ----

  /** A unary minus is the byte 0x46 behind its operand, a cast converts an int, and
      parentheses are nothing. */
  lemma UnaryBytes(vars: seq<Var>, e: Expr)
    requires ExprCode(vars, e).ECode?
    ensures e.Neg? ==> var c := ExprCode(vars, e.operand); c.ECode? && ExprCode(vars, e) == ECode(c.code + [0x46], c.ty)
    ensures e.Cast? ==>
              var c := ExprCode(vars, e.operand);
              c.ECode? && ExprCode(vars, e) == ECode(c.code + if c.ty == TInt then [0x47] else [], TFlt)
    ensures e.Group? ==> ExprCode(vars, e) == ExprCode(vars, e.inner)
  {
  }

  /** The bytes of a leaf; a variable is addressed by its position. */
  lemma LeafBytes(vars: seq<Var>, e: Expr)
    requires ExprCode(vars, e).ECode?
    ensures e.IntLit? ==>
              var code := ExprCode(vars, e).code;
              && |code| == 5 && code[0] == 0x36
              && Congruent(e.i, BigEndian(code[1], code[2], code[3], code[4]))
    ensures e.FltLit? ==> ExprCode(vars, e).code == [0x37, e.f.b0, e.f.b1, e.f.b2, e.f.b3]
    ensures e.Ident? ==>
              exists k :: 0 <= k < |vars| && vars[k].name == e.name
                && ExprCode(vars, e).code == [if vars[k].ty == TFlt then 0x34 else 0x32, k % 0x100]
  {
    if e.IntLit? { Be32RoundTrip(e.i); }
  }

  /** Operands in order, an int one converted behind its own code when the other is a float,
      then the operator's byte. */
  lemma BinaryBytes(vars: seq<Var>, e: Expr)
    requires e.Binary? && ExprCode(vars, e).ECode?
    ensures ExprCode(vars, e.left).ECode? && ExprCode(vars, e.right).ECode?
    ensures var (l, r) := (ExprCode(vars, e.left), ExprCode(vars, e.right));
            var float := l.ty == TFlt || r.ty == TFlt;
            && (float ==> e.op in {Add, Sub, Mul, Div, Eq, Ne})
            && ExprCode(vars, e).ty == (if float then TFlt else TInt)
            && ExprCode(vars, e).code
            == l.code + (if l.ty == TInt && r.ty == TFlt then [0x47] else [])
             + (r.code + (if l.ty == TFlt && r.ty == TInt then [0x47] else []))
             + [match e.op
                case Add => if float then 0x50 else 0x42
                case Sub => if float then 0x51 else 0x43
                case Mul => if float then 0x52 else 0x44
                case Div => if float then 0x53 else 0x45
                case Eq => 0x4a
                case Ne => 0x4b
                case Lt => 0x4c
                case Le => 0x4d
                case Gt => 0x4e
                case Ge => 0x4f]
  {
  }

  lemma AssignBytes(sc: Scope, x: string, e: Expr)
    requires sc.off <= |sc.vars| && AssignCode(sc, x, e).SCode?
    ensures ExprCode(sc.vars, e).ECode?
    ensures var (c, k) := (ExprCode(sc.vars, e), Lookup(sc.vars, x));
            AssignCode(sc, x, e).code ==
            c.code + match k
                     case None => [if c.ty == TFlt then 0x35 else 0x33, |sc.vars| % 0x100]
                     case Some(k) =>
                       if sc.vars[k].ty != TFlt then [0x33, k % 0x100]
                       else if c.ty == TInt then [0x47, 0x35, k % 0x100]
                       else [0x35, k % 0x100]
  {
  }

  /** Condition, exit jump, `then` code, jump over the `else` code, and that code. The high
      byte of the exit jump's distance is always zero. */
  lemma IfBytes(g: Globals, sc: Scope, s: Stmt)
    requires g.Ok() && g.reach == 0x100 && sc.off <= |sc.vars| && s.If? && StmtCode(g, sc, s).SCode?
    ensures var e := ExprCode(sc.vars, s.cond);
            var sc1 := Pushed(sc, e, s.cond);
            var thn := BlockCode(g, Child(sc1, sc1.ssize), s.thn);
            && thn.SCode?
            && var els := BlockCode(g, Child(Back(sc1, thn.sc), sc1.ssize), s.els);
               && els.SCode?
               && var (c, t, f) := (CodeOf(e), thn.code, els.code);
                  (|t| + 3 < 0x1_0000 && |f| < 0x1_0000 ==>
                     StmtCode(g, sc, s).code ==
                     c + ([0x62, 0, (|t| + 3) % 0x100] + t + [0x60, |f| / 0x100, |f| % 0x100] + f))
  {
    hide ExprCode, BlockCode, IfTail;
    var e := ExprCode(sc.vars, s.cond);
    var sc1 := Pushed(sc, e, s.cond);
    var thn := BlockCode(g, Child(sc1, sc1.ssize), s.thn);
    TailBytes(g, thn.code, BlockCode(g, Child(Back(sc1, thn.sc), sc1.ssize), s.els).code);
  }

  lemma TailBytes(g: Globals, t: seq<byte>, f: seq<byte>)
    requires g.Ok() && g.reach == 0x100
    ensures |t| + 3 < 0x1_0000 && |f| < 0x1_0000 ==>
              IfTail(g, t, f) ==
              [0x62, 0, (|t| + 3) % 0x100] + t + [0x60, |f| / 0x100, |f| % 0x100] + f
  {
  }

  /** Condition, exit jump, body, jump back to the condition. */
  lemma WhileBytes(g: Globals, sc: Scope, s: Stmt)
    requires g.Ok() && g.reach == 0x100 && sc.off <= |sc.vars| && s.While? && StmtCode(g, sc, s).SCode?
    ensures var e := ExprCode(sc.vars, s.cond);
            var body := BlockCode(g, Child(Pushed(sc, e, s.cond), 0), s.body);
            && body.SCode?
            && var (c, b) := (CodeOf(e), body.code);
               StmtCode(g, sc, s).code ==
               c + [0x62, 0, (|b| + 3) % 0x100] + b + [0x61, 0, (|c| + |b| + 6) % 0x100]
  {
    hide ExprCode, BlockCode, WhileTail;
    var e := ExprCode(sc.vars, s.cond);
    LoopBytes(g, CodeOf(e), BlockCode(g, Child(Pushed(sc, e, s.cond), 0), s.body).code);
  }

  lemma LoopBytes(g: Globals, c: seq<byte>, b: seq<byte>)
    requires g.Ok() && g.reach == 0x100
    ensures c + WhileTail(g, c, b) == c + [0x62, 0, (|b| + 3) % 0x100] + b + [0x61, 0, (|c| + |b| + 6) % 0x100]
  {
  }

  function Codes(vars: seq<Var>, args: seq<Expr>): seq<seq<byte>> {
    seq(|args|, i requires 0 <= i < |args| => CodeOf(ExprCode(vars, args[i])))
  }

  /** Arguments in order, then the call by the callee's index. */
  lemma CallBytes(g: Globals, sc: Scope, s: Stmt)
    requires g.Ok() && sc.off <= |sc.vars| && s.Call? && StmtCode(g, sc, s).SCode?
    ensures s.func in g.fns
    ensures var k := g.fns[s.func].index;
            StmtCode(g, sc, s).code == Flat(Codes(sc.vars, s.args)) + [0x80, k / 0x100, k % 0x100]
  {
    ArgsBytes(sc, s.args);
    hide ArgsCode, Codes;
  }

  lemma {:induction false} ArgsBytes(sc: Scope, args: seq<Expr>)
    requires ArgsCode(sc, args).SCode?
    ensures ArgsCode(sc, args).code == Flat(Codes(sc.vars, args))
    decreases args
  {
    hide ExprCode, Depth;
    if args != [] {
      ArgsBytes(Pushed(sc, ExprCode(sc.vars, args[0]), args[0]), args[1..]);
      assert Codes(sc.vars, args)[1..] == Codes(sc.vars, args[1..]);
    }
  }

  // ---- operators as compiled ----

  /** The value as a float: an int is converted. */
  ghost predicate AsFloat(fl: FloatOps, v: Eval, f: Float) {
    v.Val? && match v.v case FltV(x) => f == x case IntV(i) => f == fl.ofInt(i)
  }

  /** The code of an operator with a float operand leaves the float operation on both operands,
      the left one first. */
  lemma FloatOperator(m: Vm, vars: seq<Var>, e: Expr, store: Store, d: Data, a: Float, b: Float) returns (n: nat)
    requires e.Binary? && e.op in {Add, Sub, Mul, Div} && ExprCode(vars, e).ECode?
    requires Agree(vars, store, d.locals) && Room(m, d, Depth(e))
    requires var (l, r) := (EvalExpr(m.fl, store, e.left), EvalExpr(m.fl, store, e.right));
             AsFloat(m.fl, l, a) && AsFloat(m.fl, r, b) && (l.v.FltV? || r.v.FltV?)
    ensures e.op == Add ==> Fares(m, ExprCode(vars, e).code, d, n, Ends(WithTop(d, FltV(m.fl.add(a, b)))))
    ensures e.op == Sub ==> Fares(m, ExprCode(vars, e).code, d, n, Ends(WithTop(d, FltV(m.fl.sub(a, b)))))
    ensures e.op == Mul ==> Fares(m, ExprCode(vars, e).code, d, n, Ends(WithTop(d, FltV(m.fl.mul(a, b)))))
    ensures e.op == Div ==> Fares(m, ExprCode(vars, e).code, d, n, Ends(WithTop(d, FltV(m.fl.div(a, b)))))
  {
    var fate;
    n, fate := ExprRun(m, vars, e, store, d);
    hide Fares, ExprCode, Agree, Room, Depth;
  }

  /** The code of an operator on two ints leaves the int `r` that is told by the operator's
      law, or dies where the division does. */
  lemma IntOperatorRun(m: Vm, vars: seq<Var>, e: Expr, store: Store, d: Data, a: int32, b: int32, r: int32)
    returns (n: nat)
    requires e.Binary? && ExprCode(vars, e).ECode?
    requires Agree(vars, store, d.locals) && Room(m, d, Depth(e))
    requires EvalExpr(m.fl, store, e.left) == Val(IntV(a)) && EvalExpr(m.fl, store, e.right) == Val(IntV(b))
    ensures Computes(e.op, a, b, r) ==> Fares(m, ExprCode(vars, e).code, d, n, Ends(WithTop(d, IntV(r))))
    ensures e.op == Div && (b == 0 || (a == -0x8000_0000 && b == -1)) ==>
              Fares(m, ExprCode(vars, e).code, d, n, Dies(Language.Fault.Arith))
  {
    var fate;
    n, fate := ExprRun(m, vars, e, store, d);
    IntExact(e.op, a, b, r);
    ApplyInts(m.fl, e.op, a, b);
    BinaryParts(m.fl, vars, e, store);
    hide *;
  }

  lemma ApplyInts(fl: FloatOps, op: BinOp, a: int32, b: int32)
    ensures Apply(fl, op, IntV(a), IntV(b))
         == if IntOp(op, a, b).Some? then Val(IntV(IntOp(op, a, b).value)) else Err(Language.Fault.Arith)
  {
    hide IntOp;
  }
}
