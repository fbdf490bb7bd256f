/** The interpreter as it is written: a loop that dispatches handlers, which move
    a stack pointer and write operand and local memory in place. It refines the
    small-step machine, one loop turn per step. */
module Interpreter {
  import opened Words
  import opened Ast
  import opened Language
  import opened Bytecode
  import opened Machine

  /** How a call of the interpreter ends. `OutOfFuel` stands for "still running". */
  datatype Ending = Finished | Trapped(why: Fault) | OutOfFuel

  /** The int handlers' arithmetic; `None` is a division that traps. */
  method IntResult(opcode: byte, a: int32, b: int32) returns (r: Option<int32>)
    requires IntOperator(opcode).Some?
    ensures r == IntOp(IntOperator(opcode).value, a, b)
  {
    if opcode == 0x42 {
      r := Some(Wrap(a + b));
    } else if opcode == 0x43 {
      r := Some(Wrap(a - b));
    } else if opcode == 0x44 {
      r := Some(Wrap(a * b));
    } else if opcode == 0x45 {
      if b == 0 || (a == INT32_MIN && b == -1) {
        return None;
      }
      r := Some(Wrap(TruncDiv(a, b)));
    } else if opcode == 0x4a {
      r := Some(if a == b then 1 else 0);
    } else if opcode == 0x4b {
      r := Some(if a != b then 1 else 0);
    } else if opcode == 0x4c {
      r := Some(if a < b then 1 else 0);
    } else if opcode == 0x4d {
      r := Some(if a <= b then 1 else 0);
    } else if opcode == 0x4e {
      r := Some(if a > b then 1 else 0);
    } else {
      r := Some(if a >= b then 1 else 0);
    }
  }

  /** One frame context: words `0..sp` of `stack` are in use. */
  class Context {
    var framePc: int
    var sp: nat
    const stack: array<Value>
    const locals: array<Word>

    ghost predicate Valid()
      reads this`sp
    {
      sp <= stack.Length && stack as object != locals
    }

    /** The frame this context is while address `pc` of `code` is interpreted. */
    ghost function Abs(code: seq<byte>, pc: int): Frame
      requires Valid()
      reads this`sp, stack, locals
    {
      Frame(code, pc, stack[..sp], locals[..], stack.Length)
    }

    /** A handler did what the machine's rule says. */
    ghost predicate Follows(r: Local, fault: Option<Fault>, code: seq<byte>, pc: int)
      reads this`sp, stack, locals
    {
      && Valid()
      && match r
         case Bad(why) => fault == Some(why)
         case Ok(f) => fault == None && Abs(code, pc) == f
    }

    /** Fresh memory for a function; the arguments are copied from the words
        below the caller's stack pointer. */
    constructor (m: Vm, f: Func, caller: Context)
      requires caller.Valid() && f.argc <= caller.sp && f.argc <= f.nvars
      ensures Valid() && fresh(this) && fresh(stack) && fresh(locals)
      ensures Abs(f.body, 0) == Entry(m, f, caller.stack[caller.sp - f.argc..caller.sp])
    {
      framePc, sp := 0, 0;
      stack := new Value[f.nstack](_ => IntV(0));
      locals := new Word[f.nvars](i => if f.argc <= i then m.junk(i - f.argc) else None);
      new;
      for i := 0 to f.argc
        invariant sp == 0 && stack.Length == f.nstack && stack as object != locals
        invariant forall k :: 0 <= k < i ==> locals[k] == Some(caller.stack[caller.sp - f.argc + k])
        invariant forall k :: f.argc <= k < f.nvars ==> locals[k] == m.junk(k - f.argc)
      {
        locals[i] := Some(caller.stack[caller.sp - f.argc + i]);
      }
      assert locals[..] == Entry(m, f, caller.stack[caller.sp - f.argc..caller.sp]).locals;
    }

    /** Stores a word at the stack pointer and moves it up. */
    method Put(v: Value, ghost m: Vm, ghost code: seq<byte>, ghost pc: int, ghost width: nat)
      returns (fault: Option<Fault>)
      requires Valid() && m.checked
      modifies this`sp, stack
      ensures Follows(Push(m, old(Abs(code, pc)), v, width), fault, code, pc + width)
    {
      if sp == stack.Length {
        return Some(Memory);
      }
      stack[sp] := v;
      sp := sp + 1;
      assert stack[..sp] == old(stack[..sp]) + [v];
      return None;
    }

    method LoadSlot(slot: byte, ty: Ty, ghost m: Vm, ghost code: seq<byte>, ghost pc: int)
      returns (fault: Option<Fault>)
      requires Valid() && m.checked
      modifies this`sp, stack
      ensures Follows(Load(m, old(Abs(code, pc)), slot, ty), fault, code, pc + 2)
    {
      if slot >= locals.Length {
        return Some(Memory);
      }
      if locals[slot].None? {
        return Some(Unbound);
      }
      if TyOf(locals[slot].value) != ty {
        return Some(Confused);
      }
      fault := Put(locals[slot].value, m, code, pc, 2);
    }

    method SaveSlot(slot: byte, ty: Ty, ghost code: seq<byte>, ghost pc: int) returns (fault: Option<Fault>)
      requires Valid()
      modifies this`sp, locals
      ensures Follows(Save(old(Abs(code, pc)), slot, ty), fault, code, pc + 2)
    {
      if sp == 0 || slot >= locals.Length {
        return Some(Memory);
      }
      if TyOf(stack[sp - 1]) != ty {
        return Some(Confused);
      }
      locals[slot] := Some(stack[sp - 1]);
      sp := sp - 1;
      assert stack[..sp] == old(stack[..sp])[..sp];
      return None;
    }

    /** The two topmost words, when both are there with type `ty`. */
    method Operands(ty: Ty) returns (fault: Option<Fault>, v1: Value, v2: Value)
      requires Valid()
      ensures sp < 2 ==> fault == Some(Memory)
      ensures sp >= 2 ==> v1 == stack[sp - 2] && v2 == stack[sp - 1]
      ensures sp >= 2 ==> fault == if TyOf(v1) != ty || TyOf(v2) != ty then Some(Confused) else None
    {
      if sp < 2 {
        return Some(Memory), IntV(0), IntV(0);
      }
      v1, v2 := stack[sp - 2], stack[sp - 1];
      fault := if TyOf(v1) != ty || TyOf(v2) != ty then Some(Confused) else None;
    }

    /** Replaces the two topmost words by a result. */
    method Replace(v: Value)
      requires Valid() && sp >= 2
      modifies this`sp, stack
      ensures Valid() && stack[..sp] == old(stack[..sp - 2]) + [v]
    {
      stack[sp - 2] := v;
      sp := sp - 1;
    }

    method IntBinary(opcode: byte, ghost m: Vm, ghost code: seq<byte>, ghost pc: int) returns (fault: Option<Fault>)
      requires Valid() && IntOperator(opcode).Some?
      modifies this`sp, stack
      ensures Follows(Machine.Arith(m, old(Abs(code, pc)), IntOperator(opcode).value, TInt), fault, code, pc + 1)
    {
      var v1, v2;
      fault, v1, v2 := Operands(TInt);
      if fault.Some? {
        return;
      }
      var r := IntResult(opcode, v1.i, v2.i);
      if r.None? {
        return Some(Language.Fault.Arith);
      }
      Replace(IntV(r.value));
    }

    method FltBinary(opcode: byte, m: Vm, ghost code: seq<byte>, ghost pc: int) returns (fault: Option<Fault>)
      requires Valid() && FltOperator(opcode).Some?
      modifies this`sp, stack
      ensures Follows(Machine.Arith(m, old(Abs(code, pc)), FltOperator(opcode).value, TFlt), fault, code, pc + 1)
    {
      var v1, v2;
      fault, v1, v2 := Operands(TFlt);
      if fault.Some? {
        return;
      }
      var r :=
        if opcode == 0x50 then m.fl.add(v1.f, v2.f)
        else if opcode == 0x51 then m.fl.sub(v1.f, v2.f)
        else if opcode == 0x52 then m.fl.mul(v1.f, v2.f)
        else m.fl.div(v1.f, v2.f);
      Replace(FltV(r));
    }

    method IntToFloat(m: Vm, ghost code: seq<byte>, ghost pc: int) returns (fault: Option<Fault>)
      requires Valid()
      modifies stack
      ensures Follows(Convert(m, old(Abs(code, pc))), fault, code, pc + 1)
    {
      if sp == 0 {
        return Some(Memory);
      }
      if stack[sp - 1].FltV? {
        return Some(Confused);
      }
      stack[sp - 1] := FltV(m.fl.ofInt(stack[sp - 1].i));
      assert stack[..sp] == old(stack[..sp])[..sp - 1] + [stack[sp - 1]];
      return None;
    }

    /** Conditional jumps pop before they look. */
    method PopJump(dist: nat, onZero: bool, ghost code: seq<byte>, ghost pc: int)
      returns (fault: Option<Fault>, step: int)
      requires Valid()
      modifies this`sp
      ensures Follows(Branch(old(Abs(code, pc)), dist, onZero), fault, code, pc + step)
    {
      if sp == 0 {
        return Some(Memory), 0;
      }
      if stack[sp - 1].FltV? {
        return Some(Confused), 0;
      }
      var value := stack[sp - 1].i;
      sp := sp - 1;
      assert stack[..sp] == old(stack[..sp])[..sp];
      return None, 3 + if (value == 0) == onZero then dist else 0;
    }

    lemma Panics(code: seq<byte>, pc: int)
      requires Valid()
      ensures Follows(Bad(Panic), Some(Panic), code, pc)
    {
    }

    /** Dispatch on the opcode byte at `pc`; the operands follow it. Calls are
        handled by the interpreter itself. */
    method Dispatch(m: Vm, code: seq<byte>, pc: nat) returns (fault: Option<Fault>, step: int)
      requires Valid() && m.checked && pc < |code| && Fetch(code, pc).Some? && code[pc] != CALL
      modifies this`sp, stack, locals
      ensures !Fetch(code, pc).value.Invoke?
      ensures Follows(Handle(m, Fetch(code, pc).value, old(Abs(code, pc))), fault, code, pc + step)
    {
      hide Follows, Valid, Load, Save, Push, Machine.Arith, Branch, Convert;
      var opcode := code[pc];
      ghost var w := code[pc..pc + Width(opcode)];
      assert Fetch(code, pc) == Some(Interpret(w)) && w[0] == opcode;
      if opcode == ILOAD || opcode == FLOAD {
        assert w[1] == code[pc + 1];
        fault := LoadSlot(code[pc + 1], if opcode == ILOAD then TInt else TFlt, m, code, pc);
        step := 2;
      } else if opcode == ISAVE || opcode == FSAVE {
        assert w[1] == code[pc + 1];
        fault := SaveSlot(code[pc + 1], if opcode == ISAVE then TInt else TFlt, code, pc);
        step := 2;
      } else if opcode == ICONST || opcode == FCONST {
        assert w[1] == code[pc + 1] && w[2] == code[pc + 2] && w[3] == code[pc + 3] && w[4] == code[pc + 4];
        fault := PutConstant(opcode, code[pc + 1], code[pc + 2], code[pc + 3], code[pc + 4], m, code, pc);
        step := 5;
      } else if opcode == JMP || opcode == RJMP || opcode == JEZ || opcode == JNEZ {
        assert w[1] == code[pc + 1] && w[2] == code[pc + 2];
        fault, step := Jump(opcode, FromBe16(code[pc + 1], code[pc + 2]), m, code, pc);
      } else if opcode == I2F_OP {
        fault := IntToFloat(m, code, pc);
        step := 1;
      } else if IntOperator(opcode).Some? {
        fault := IntBinary(opcode, m, code, pc);
        step := 1;
      } else if FltOperator(opcode).Some? {
        fault := FltBinary(opcode, m, code, pc);
        step := 1;
      } else {
        fault, step := Some(Panic), 0;
        Panics(code, pc);
      }
    }

    method PutConstant(opcode: byte, b0: byte, b1: byte, b2: byte, b3: byte,
                       ghost m: Vm, ghost code: seq<byte>, ghost pc: int)
      returns (fault: Option<Fault>)
      requires Valid() && m.checked
      modifies this`sp, stack
      ensures Follows(Push(m, old(Abs(code, pc)),
                           if opcode == ICONST then IntV(FromBe32(b0, b1, b2, b3)) else FltV(Float(b0, b1, b2, b3)), 5),
                      fault, code, pc + 5)
    {
      if opcode == ICONST {
        fault := Put(IntV(FromBe32(b0, b1, b2, b3)), m, code, pc, 5);
      } else {
        fault := Put(FltV(Float(b0, b1, b2, b3)), m, code, pc, 5);
      }
    }

    method Jump(opcode: byte, dist: nat, ghost m: Vm, ghost code: seq<byte>, ghost pc: int)
      returns (fault: Option<Fault>, step: int)
      requires Valid() && (opcode == JMP || opcode == RJMP || opcode == JEZ || opcode == JNEZ)
      modifies this`sp
      ensures Follows(Handle(m, if opcode == JMP then Jmp(dist) else if opcode == RJMP then RJmp(dist)
                                else if opcode == JEZ then Jez(dist) else Jnez(dist), old(Abs(code, pc))),
                      fault, code, pc + step)
    {
      if opcode == JMP {
        return None, 3 + dist;
      } else if opcode == RJMP {
        return None, 3 - dist;
      } else {
        fault, step := PopJump(dist, opcode == JEZ, code, pc);
      }
    }
  }

  /** `n` steps lead from `start` to address `pc` of `code` in `frame`. */
  ghost predicate Reached(m: Vm, start: Frames, n: nat, frame: Context, below: seq<Frame>, code: seq<byte>, pc: int)
    reads frame`sp, frame.stack, frame.locals
  {
    frame.Valid() && Takes(m, start, n, At(Frames(below, frame.Abs(code, pc))))
  }

  /** What a status reports after `n` steps; `s` is the state it was left in. */
  ghost predicate Reports(m: Vm, start: Frames, n: nat, status: Ending, s: Frames) {
    match status
    case Finished => Takes(m, start, n, At(s)) && !Live(s.top)
    case Trapped(why) => Takes(m, start, n, Trap(why))
    case OutOfFuel => Takes(m, start, n, At(s)) && !Halted(s)
  }

  lemma OneMore(m: Vm, start: Frames, n: nat, s: Frames, r: Result)
    requires Takes(m, start, n, At(s)) && !Halted(s) && Step(m, s) == r
    ensures Takes(m, start, n + 1, r)
  {
    assert r.At? ==> Takes(m, r.s, 0, r);
    hide Step;
    assert Takes(m, s, 1, r);
    TakesTrans(m, start, n, s, 1, r);
  }

  lemma Onwards(m: Vm, start: Frames, n: nat, s: Frames, k: nat, status: Ending, s': Frames)
    requires Takes(m, start, n, At(s)) && Reports(m, s, k, status, s')
    ensures Reports(m, start, n + k, status, s')
  {
    hide Takes;
    match status
    case Trapped(why) => TakesTrans(m, start, n, s, k, Trap(why));
    case _ => TakesTrans(m, start, n, s, k, At(s'));
  }

  // ---- single steps ----

  /** An instruction whose operands are cut off. */
  lemma CutOff(m: Vm, s: Frames)
    requires Live(s.top) && Fetch(s.top.code, s.top.pc).None?
    ensures !Halted(s) && Step(m, s) == Trap(Truncated)
  {
  }

  lemma Handled(m: Vm, s: Frames)
    requires Live(s.top) && Fetch(s.top.code, s.top.pc).Some? && !Fetch(s.top.code, s.top.pc).value.Invoke?
    ensures !Halted(s)
    ensures Step(m, s) == match Handle(m, Fetch(s.top.code, s.top.pc).value, s.top)
                          case Bad(why) => Trap(why)
                          case Ok(f) => At(s.(top := f))
  {
    hide Handle, Fetch;
  }

  lemma Called(m: Vm, s: Frames, index: nat)
    requires Live(s.top) && Fetch(s.top.code, s.top.pc) == Some(Invoke(index))
    ensures !Halted(s) && Step(m, s) == Enter(m, s, index)
  {
    hide Handle, Enter;
  }

  lemma CallBytes(code: seq<byte>, pc: nat)
    requires pc + 3 <= |code| && code[pc] == CALL
    ensures Fetch(code, pc) == Some(Invoke(FromBe16(code[pc + 1], code[pc + 2])))
  {
    var w := code[pc..pc + 3];
    assert w[0] == CALL && w[1] == code[pc + 1] && w[2] == code[pc + 2];
  }

  lemma Begin(m: Vm, start: Frames, frame: Context, below: seq<Frame>, code: seq<byte>, pc: int)
    requires frame.Valid() && start == Frames(below, frame.Abs(code, pc))
    ensures Reached(m, start, 0, frame, below, code, pc) && Takes(m, start, 0, At(start))
  {
  }

  /** Runs `code` in `frame`, on top of the open frames `below`, for at most
      `budget` machine steps. */
  method ExecuteOpcodes(m: Vm, frame: Context, depth: nat, code: seq<byte>, budget: nat, ghost below: seq<Frame>)
    returns (status: Ending, pc: int, left: nat, ghost s: Frames)
    requires frame.Valid() && m.checked && |below| == depth
    modifies frame`framePc, frame`sp, frame.stack, frame.locals
    ensures frame.Valid() && left <= budget
    ensures Reports(m, Frames(below, old(frame.Abs(code, 0))), budget - left, status, s)
    ensures status.Finished? ==> s == Frames(below, frame.Abs(code, pc)) && frame.framePc == old(frame.framePc) + pc
    ensures status.OutOfFuel? ==> left == 0
    decreases budget, 2
  {
    hide Takes, Step, Reached, Handle, Fetch;
    ghost var start := Frames(below, frame.Abs(code, 0));
    pc, left := 0, budget;
    Begin(m, start, frame, below, code, 0);
    while 0 <= pc < |code|
      invariant left <= budget && frame.Valid()
      invariant Reached(m, start, budget - left, frame, below, code, pc)
      invariant frame.framePc == old(frame.framePc) + pc
      decreases left
    {
      s := Here(m, start, budget - left, frame, below, code, pc);
      if left == 0 {
        return OutOfFuel, pc, left, s;
      }
      var step;
      status, step, left, s := Turn(m, frame, depth, code, pc, left, below, start, budget);
      if !status.Finished? {
        return;
      }
      frame.framePc := frame.framePc + step;
      pc := pc + step;
    }
    s := Here(m, start, budget - left, frame, below, code, pc);
    status := Finished;
  }

  lemma Here(m: Vm, start: Frames, n: nat, frame: Context, below: seq<Frame>, code: seq<byte>, pc: int)
    returns (s: Frames)
    requires Reached(m, start, n, frame, below, code, pc)
    ensures frame.Valid() && s == Frames(below, frame.Abs(code, pc)) && Takes(m, start, n, At(s))
  {
    s := Frames(below, frame.Abs(code, pc));
  }

  /** One turn of the loop; `Finished` means that it may go on. */
  method Turn(m: Vm, frame: Context, depth: nat, code: seq<byte>, pc: nat, budget: nat,
              ghost below: seq<Frame>, ghost start: Frames, ghost total: nat)
    returns (status: Ending, step: int, left: nat, ghost s: Frames)
    requires frame.Valid() && m.checked && |below| == depth && pc < |code| && 0 < budget <= total
    requires Reached(m, start, total - budget, frame, below, code, pc)
    modifies frame`sp, frame.stack, frame.locals
    ensures frame.Valid() && left < budget
    ensures status.Finished? ==> Reached(m, start, total - left, frame, below, code, pc + step)
    ensures !status.Finished? ==> Reports(m, start, total - left, status, s)
    ensures status.OutOfFuel? ==> left == 0
    decreases budget, 1
  {
    hide Takes, Step, Handle, Fetch;
    s := Here(m, start, total - budget, frame, below, code, pc);
    ghost var n := total - budget;
    left := budget - 1;
    if pc + Width(code[pc]) > |code| {
      CutOff(m, s);
      OneMore(m, start, n, s, Trap(Truncated));
      return Trapped(Truncated), 0, left, s;
    }
    if code[pc] == CALL {
      CallBytes(code, pc);
      ghost var before := s;
      status, left, s := Call(m, frame, depth, FromBe16(code[pc + 1], code[pc + 2]), budget, code, pc, below);
      step := 3;
      if status.Finished? {
        TakesTrans(m, start, n, before, budget - left, At(Frames(below, frame.Abs(code, pc + 3))));
      } else {
        Onwards(m, start, n, before, budget - left, status, s);
      }
    } else {
      var fault;
      fault, step := frame.Dispatch(m, code, pc);
      Handled(m, s);
      OneMore(m, start, n, s, Step(m, s));
      status := if fault.Some? then Trapped(fault.value) else Finished;
    }
  }

  /** A call: fresh memory, the arguments copied in, a nested interpreter run.
      Nothing the caller owns is written. */
  method Call(m: Vm, frame: Context, depth: nat, index: nat, budget: nat,
              ghost code: seq<byte>, ghost pc: nat, ghost below: seq<Frame>)
    returns (status: Ending, left: nat, ghost s: Frames)
    requires frame.Valid() && m.checked && |below| == depth && budget > 0
    requires pc < |code| && Fetch(code, pc) == Some(Invoke(index))
    ensures left < budget
    ensures status.Finished? ==> Takes(m, Frames(below, frame.Abs(code, pc)), budget - left,
                                       At(Frames(below, frame.Abs(code, pc + 3))))
    ensures !status.Finished? ==> Reports(m, Frames(below, frame.Abs(code, pc)), budget - left, status, s)
    ensures status.OutOfFuel? ==> left == 0
    decreases budget, 0
  {
    hide Takes, Step, Handle, Fetch;
    ghost var here := Frames(below, frame.Abs(code, pc));
    Called(m, here, index);
    Begin(m, here, frame, below, code, pc);
    OneMore(m, here, 0, here, Step(m, here));
    s := here;
    if index !in m.funcs {
      return Trapped(Panic), budget - 1, s;
    }
    var f := m.funcs[index];
    if frame.sp < f.argc || f.argc > f.nvars {
      return Trapped(Memory), budget - 1, s;
    }
    if depth + 1 >= m.limit {
      return Trapped(CallDepth), budget - 1, s;
    }
    var callee := new Context(m, f, frame);
    ghost var inside := Frames(below + [here.top], callee.Abs(f.body, 0));
    assert here.top.stack[frame.sp - f.argc..] == frame.stack[frame.sp - f.argc..frame.sp];
    assert Step(m, here) == At(inside);
    var pc';
    status, pc', left, s := ExecuteOpcodes(m, callee, depth + 1, f.body, budget - 1, below + [here.top]);
    Onwards(m, here, 1, inside, budget - 1 - left, status, s);
    if status.Finished? {
      if left == 0 {
        status := OutOfFuel;
      } else {
        left := left - 1;
        Returned(m, here, budget - left - 1, below, here.top, s);
      }
    }
  }

  lemma Returned(m: Vm, start: Frames, n: nat, below: seq<Frame>, caller: Frame, s: Frames)
    requires Takes(m, start, n, At(s)) && s.below == below + [caller] && !Live(s.top)
    ensures Takes(m, start, n + 1, At(Frames(below, caller.(pc := caller.pc + 3))))
  {
    assert Step(m, s) == At(Return(s));
    assert s.below[..|below|] == below;
    OneMore(m, start, n, s, At(Return(s)));
  }
}
