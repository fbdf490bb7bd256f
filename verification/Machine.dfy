/** The virtual machine as a small-step system over a stack of call frames. */
module Machine {
  import opened Words
  import opened Ast
  import opened Language
  import opened Bytecode

  /** A word of local memory; `None` while nothing has been stored there. */
  type Word = Option<Value>

  /** One call frame. `cap` is the number of operand words its stack was
      allocated for, `pc` the offset inside the code being interpreted. */
  datatype Frame = Frame(code: seq<byte>, pc: int, stack: seq<Value>, locals: seq<Word>, cap: nat)

  datatype Frames = Frames(below: seq<Frame>, top: Frame)

  /** A registered function: argument words, local words, operand words, body. */
  datatype Func = Func(argc: nat, nvars: nat, nstack: nat, body: seq<byte>)

  /** The fixed part of a run. `limit` is the length of the call stack, `junk`
      what freshly allocated local memory is taken to contain - nothing, or any
      leftover words - and `checked` says whether a push beyond `cap` is an error. */
  datatype Vm = Vm(fl: FloatOps, funcs: map<nat, Func>, limit: nat, checked: bool, junk: nat -> Word)

  datatype Local = Ok(f: Frame) | Bad(why: Fault)

  datatype Result = At(s: Frames) | Trap(why: Fault)

  predicate Live(f: Frame) { 0 <= f.pc < |f.code| }

  predicate Halted(s: Frames) { s.below == [] && !Live(s.top) }

  function Push(m: Vm, f: Frame, v: Value, width: nat): Local {
    if m.checked && |f.stack| >= f.cap then Bad(Memory)
    else Ok(f.(stack := f.stack + [v], pc := f.pc + width))
  }

  function Load(m: Vm, f: Frame, slot: byte, ty: Ty): Local {
    if slot >= |f.locals| then Bad(Memory)
    else
      match f.locals[slot]
      case None => Bad(Unbound)
      case Some(v) => if TyOf(v) != ty then Bad(Confused) else Push(m, f, v, 2)
  }

  function Save(f: Frame, slot: byte, ty: Ty): Local {
    var n := |f.stack|;
    if n == 0 || slot >= |f.locals| then Bad(Memory)
    else if TyOf(f.stack[n - 1]) != ty then Bad(Confused)
    else Ok(f.(stack := f.stack[..n - 1], locals := f.locals[slot := Some(f.stack[n - 1])], pc := f.pc + 2))
  }

  /** A two-operand instruction over operands of type `ty`. */
  function Arith(m: Vm, f: Frame, op: BinOp, ty: Ty): Local {
    var n := |f.stack|;
    if n < 2 then Bad(Memory)
    else if TyOf(f.stack[n - 2]) != ty || TyOf(f.stack[n - 1]) != ty then Bad(Confused)
    else
      match Apply(m.fl, op, f.stack[n - 2], f.stack[n - 1])
      case Err(why) => Bad(why)
      case Val(v) => Ok(f.(stack := f.stack[..n - 2] + [v], pc := f.pc + 1))
  }

  /** A conditional jump pops its int operand; `taken` tells when it jumps. */
  function Branch(f: Frame, dist: nat, onZero: bool): Local {
    var n := |f.stack|;
    if n == 0 then Bad(Memory)
    else if f.stack[n - 1].FltV? then Bad(Confused)
    else
      var jump := (f.stack[n - 1].i == 0) == onZero;
      Ok(f.(stack := f.stack[..n - 1], pc := f.pc + 3 + if jump then dist else 0))
  }

  function Convert(m: Vm, f: Frame): Local {
    var n := |f.stack|;
    if n == 0 then Bad(Memory)
    else if f.stack[n - 1].FltV? then Bad(Confused)
    else Ok(f.(stack := f.stack[..n - 1] + [Promote(m.fl, f.stack[n - 1])], pc := f.pc + 1))
  }

  /** The handler of an instruction that stays inside its frame. */
  function Handle(m: Vm, i: Instr, f: Frame): Local
    requires !i.Invoke?
  {
    match i
    case ILoad(k) => Load(m, f, k, TInt)
    case FLoad(k) => Load(m, f, k, TFlt)
    case ISave(k) => Save(f, k, TInt)
    case FSave(k) => Save(f, k, TFlt)
    case IConst(v) => Push(m, f, IntV(v), 5)
    case FConst(v) => Push(m, f, FltV(v), 5)
    case IArith(op) => Arith(m, f, op, TInt)
    case FArith(op) => Arith(m, f, op, TFlt)
    case I2F => Convert(m, f)
    case Jmp(d) => Ok(f.(pc := f.pc + 3 + d))
    case RJmp(d) => Ok(f.(pc := f.pc + 3 - d))
    case Jez(d) => Branch(f, d, true)
    case Jnez(d) => Branch(f, d, false)
    case Unhandled(_) => Bad(Panic)
  }

  function Filled(vs: seq<Value>): (ws: seq<Word>)
    ensures |ws| == |vs|
  {
    seq(|vs|, i requires 0 <= i < |vs| => Some(vs[i]))
  }

  /** The frame a call starts in: arguments first, then uninitialised words. */
  function Entry(m: Vm, f: Func, args: seq<Value>): Frame
    requires |args| <= f.nvars
  {
    Frame(f.body, 0, [], Filled(args) + seq(f.nvars - |args|, i requires 0 <= i => m.junk(i)), f.nstack)
  }

  function Enter(m: Vm, s: Frames, index: nat): Result {
    var n := |s.top.stack|;
    if index !in m.funcs then Trap(Panic)
    else
      var f := m.funcs[index];
      if n < f.argc || f.argc > f.nvars then Trap(Memory)
      else if |s.below| + 1 >= m.limit then Trap(CallDepth)
      else At(Frames(s.below + [s.top], Entry(m, f, s.top.stack[n - f.argc..])))
  }

  /** Returning resumes the caller behind its call; the arguments stay on the
      caller's operand stack. */
  function Return(s: Frames): Frames
    requires s.below != []
  {
    var n := |s.below|;
    Frames(s.below[..n - 1], s.below[n - 1].(pc := s.below[n - 1].pc + 3))
  }

  function Step(m: Vm, s: Frames): Result
    requires !Halted(s)
  {
    if !Live(s.top) then At(Return(s))
    else
      match Fetch(s.top.code, s.top.pc)
      case None => Trap(Truncated)
      case Some(i) =>
        if i.Invoke? then Enter(m, s, i.index)
        else
          match Handle(m, i, s.top)
          case Bad(why) => Trap(why)
          case Ok(f) => At(s.(top := f))
  }

  /** Exactly `n` steps lead from `s` to `r`. */
  ghost predicate Takes(m: Vm, s: Frames, n: nat, r: Result)
    decreases n
  {
    if n == 0 then r == At(s)
    else if Halted(s) then false
    else
      match Step(m, s)
      case Trap(why) => n == 1 && r == Trap(why)
      case At(s1) => Takes(m, s1, n - 1, r)
  }

  lemma {:induction false} TakesTrans(m: Vm, s: Frames, n1: nat, s1: Frames, n2: nat, r: Result)
    requires Takes(m, s, n1, At(s1)) && Takes(m, s1, n2, r)
    ensures Takes(m, s, n1 + n2, r)
    decreases n1
  {
    if n1 > 0 {
      TakesTrans(m, Step(m, s).s, n1 - 1, s1, n2, r);
    }
  }

  /** The machine is deterministic. */
  lemma {:induction false} TakesFunctional(m: Vm, s: Frames, n: nat, r1: Result, r2: Result)
    requires Takes(m, s, n, r1) && Takes(m, s, n, r2)
    ensures r1 == r2
    decreases n
  {
    if n > 0 && Step(m, s).At? {
      TakesFunctional(m, Step(m, s).s, n - 1, r1, r2);
    }
  }

  ghost predicate Final(r: Result) { r.At? ==> Halted(r.s) }

  /** A final result is reached once, and nothing lies behind it. */
  lemma {:induction false} FinalUnique(m: Vm, s: Frames, n1: nat, r1: Result, n2: nat, r2: Result)
    requires Takes(m, s, n1, r1) && Final(r1)
    requires Takes(m, s, n2, r2)
    ensures n2 <= n1
    ensures Final(r2) ==> n1 == n2 && r1 == r2
    decreases n1
  {
    if n2 > 0 && n1 > 0 && Step(m, s).At? {
      FinalUnique(m, Step(m, s).s, n1 - 1, r1, n2 - 1, r2);
    }
  }

  // ---- running a code string inside a longer one, on top of other frames ----

  function Shift(pre: seq<byte>, post: seq<byte>, f: Frame): Frame {
    f.(code := pre + f.code + post, pc := |pre| + f.pc)
  }

  function Embed(under: seq<Frame>, pre: seq<byte>, post: seq<byte>, s: Frames): Frames {
    if s.below == [] then Frames(under, Shift(pre, post, s.top))
    else Frames(under + [Shift(pre, post, s.below[0])] + s.below[1..], s.top)
  }

  function EmbedResult(under: seq<Frame>, pre: seq<byte>, post: seq<byte>, r: Result): Result {
    if r.At? then At(Embed(under, pre, post, r.s)) else r
  }

  function Deeper(m: Vm, under: seq<Frame>): Vm { m.(limit := m.limit + |under|) }

  lemma HandleShift(m: Vm, i: Instr, f: Frame, pre: seq<byte>, post: seq<byte>)
    requires !i.Invoke?
    ensures var r := Handle(m, i, f);
            Handle(m, i, Shift(pre, post, f)) == if r.Ok? then Ok(Shift(pre, post, r.f)) else r
  {
  }

  lemma ReturnEmbed(s: Frames, under: seq<Frame>, pre: seq<byte>, post: seq<byte>)
    requires s.below != []
    ensures Return(Embed(under, pre, post, s)) == Embed(under, pre, post, Return(s))
  {
    var n := |s.below|;
    var first := Shift(pre, post, s.below[0]);
    var e := Embed(under, pre, post, s);
    if n == 1 {
      assert e.below == under + [first];
      assert e.below[..|under|] == under;
    } else {
      assert e.below[..|e.below| - 1] == under + [first] + s.below[..n - 1][1..];
    }
  }

  lemma LiveEmbed(s: Frames, under: seq<Frame>, pre: seq<byte>, post: seq<byte>)
    requires Live(s.top) && Fetch(s.top.code, s.top.pc).Some?
    ensures var top := Embed(under, pre, post, s).top;
            Live(top) && Fetch(top.code, top.pc) == Fetch(s.top.code, s.top.pc)
  {
    if s.below == [] {
      FetchIn(pre, s.top.code, post, s.top.pc);
    }
  }

  lemma StepEmbed(m: Vm, s: Frames, under: seq<Frame>, pre: seq<byte>, post: seq<byte>)
    requires !Halted(s) && (Live(s.top) ==> Fetch(s.top.code, s.top.pc).Some?)
    ensures !Halted(Embed(under, pre, post, s))
    ensures Step(Deeper(m, under), Embed(under, pre, post, s)) == EmbedResult(under, pre, post, Step(m, s))
  {
    var e := Embed(under, pre, post, s);
    if !Live(s.top) {
      ReturnEmbed(s, under, pre, post);
    } else {
      LiveEmbed(s, under, pre, post);
      var i := Fetch(s.top.code, s.top.pc).value;
      if i.Invoke? {
        EnterEmbed(m, s, i.index, under, pre, post);
      } else {
        HandleDeeper(m, i, e.top, under);
        if s.below == [] {
          HandleShift(m, i, s.top, pre, post);
        }
      }
    }
  }

  lemma HandleDeeper(m: Vm, i: Instr, f: Frame, under: seq<Frame>)
    requires !i.Invoke?
    ensures Handle(Deeper(m, under), i, f) == Handle(m, i, f)
  {
  }

  lemma EnterEmbed(m: Vm, s: Frames, index: nat, under: seq<Frame>, pre: seq<byte>, post: seq<byte>)
    ensures Enter(Deeper(m, under), Embed(under, pre, post, s), index)
         == EmbedResult(under, pre, post, Enter(m, s, index))
  {
    var e := Embed(under, pre, post, s);
    assert |e.below| == |under| + |s.below|;
    var r := Enter(m, s, index);
    if r.At? {
      if s.below == [] {
        assert r.s.below == [s.top];
        assert e.below + [e.top] == under + [Shift(pre, post, s.top)] + [];
      } else {
        assert (s.below + [s.top])[1..] == s.below[1..] + [s.top];
        assert e.below + [e.top] == under + [Shift(pre, post, s.below[0])] + (s.below + [s.top])[1..];
      }
    }
  }

  /** A run of a code string on its own is also a run of it inside any longer
      string, above any frames already open. */
  lemma {:induction false} TakesEmbed(m: Vm, s: Frames, n: nat, r: Result,
                                      under: seq<Frame>, pre: seq<byte>, post: seq<byte>)
    requires Takes(m, s, n, r) && r != Trap(Truncated)
    ensures Takes(Deeper(m, under), Embed(under, pre, post, s), n, EmbedResult(under, pre, post, r))
    decreases n
  {
    if n > 0 {
      StepEmbed(m, s, under, pre, post);
      if Step(m, s).At? {
        TakesEmbed(m, Step(m, s).s, n - 1, r, under, pre, post);
      }
    }
  }
}
