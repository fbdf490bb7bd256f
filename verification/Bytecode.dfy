/** The instruction set as bytes: encoding, decoding at an address, and the
    linear sweep of a code string. */
module Bytecode {
  import opened Words
  import opened Ast

  /** `Unhandled` stands for every opcode byte that dispatches the panic handler. */
  datatype Instr =
    | ILoad(slot: byte) | ISave(slot: byte) | FLoad(slot: byte) | FSave(slot: byte)
    | IConst(i: int32) | FConst(f: Float)
    | IArith(op: BinOp) | FArith(op: BinOp) | I2F
    | Jmp(dist: nat) | RJmp(dist: nat) | Jez(dist: nat) | Jnez(dist: nat)
    | Invoke(index: nat)
    | Unhandled(opcode: byte)

  const ILOAD: byte := 0x32
  const ISAVE: byte := 0x33
  const FLOAD: byte := 0x34
  const FSAVE: byte := 0x35
  const ICONST: byte := 0x36
  const FCONST: byte := 0x37
  const INEG: byte := 0x46
  const I2F_OP: byte := 0x47
  const JMP: byte := 0x60
  const RJMP: byte := 0x61
  const JEZ: byte := 0x62
  const JNEZ: byte := 0x63
  const CALL: byte := 0x80

  function IntOpcode(op: BinOp): byte {
    match op
    case Add => 0x42
    case Sub => 0x43
    case Mul => 0x44
    case Div => 0x45
    case Eq => 0x4a
    case Ne => 0x4b
    case Lt => 0x4c
    case Le => 0x4d
    case Gt => 0x4e
    case Ge => 0x4f
  }

  /** Float operands: arithmetic has its own opcodes, equality borrows the int
      ones, an ordering comparison has none. */
  function FltOpcode(op: BinOp): Option<byte> {
    match op
    case Add => Some(0x50)
    case Sub => Some(0x51)
    case Mul => Some(0x52)
    case Div => Some(0x53)
    case Eq => Some(0x4a)
    case Ne => Some(0x4b)
    case _ => None
  }

  function IntOperator(b: byte): Option<BinOp> {
    if b == 0x42 then Some(Add)
    else if b == 0x43 then Some(Sub)
    else if b == 0x44 then Some(Mul)
    else if b == 0x45 then Some(Div)
    else if b == 0x4a then Some(Eq)
    else if b == 0x4b then Some(Ne)
    else if b == 0x4c then Some(Lt)
    else if b == 0x4d then Some(Le)
    else if b == 0x4e then Some(Gt)
    else if b == 0x4f then Some(Ge)
    else None
  }

  function FltOperator(b: byte): Option<BinOp> {
    if b == 0x50 then Some(Add)
    else if b == 0x51 then Some(Sub)
    else if b == 0x52 then Some(Mul)
    else if b == 0x53 then Some(Div)
    else None
  }

  predicate Valid(i: Instr) {
    match i
    case FArith(op) => !IsComparison(op)
    case Jmp(d) => d < 0x1_0000
    case RJmp(d) => d < 0x1_0000
    case Jez(d) => d < 0x1_0000
    case Jnez(d) => d < 0x1_0000
    case Invoke(k) => k < 0x1_0000
    case Unhandled(b) => Width(b) == 1 && b != I2F_OP && IntOperator(b).None? && FltOperator(b).None?
    case _ => true
  }

  /** Total length of the instruction that starts with opcode `b`. */
  function Width(b: byte): nat {
    if b == ICONST || b == FCONST then 5
    else if b == JMP || b == RJMP || b == JEZ || b == JNEZ || b == CALL then 3
    else if b == ILOAD || b == ISAVE || b == FLOAD || b == FSAVE then 2
    else 1
  }

  function Encode(i: Instr): (bs: seq<byte>)
    requires Valid(i)
    ensures |bs| > 0 && |bs| == Width(bs[0])
  {
    match i
    case ILoad(k) => [ILOAD, k]
    case ISave(k) => [ISAVE, k]
    case FLoad(k) => [FLOAD, k]
    case FSave(k) => [FSAVE, k]
    case IConst(v) => [ICONST] + Be32(v)
    case FConst(f) => [FCONST, f.b0, f.b1, f.b2, f.b3]
    case IArith(op) => [IntOpcode(op)]
    case FArith(op) => [FltOpcode(op).value]
    case I2F => [I2F_OP]
    case Jmp(d) => [JMP] + Be16(d)
    case RJmp(d) => [RJMP] + Be16(d)
    case Jez(d) => [JEZ] + Be16(d)
    case Jnez(d) => [JNEZ] + Be16(d)
    case Invoke(k) => [CALL] + Be16(k)
    case Unhandled(b) => [b]
  }

  function InstrWidth(i: Instr): nat {
    match i
    case ILoad(_) => 2
    case ISave(_) => 2
    case FLoad(_) => 2
    case FSave(_) => 2
    case IConst(_) => 5
    case FConst(_) => 5
    case IArith(_) => 1
    case FArith(_) => 1
    case I2F => 1
    case Unhandled(_) => 1
    case _ => 3
  }

  lemma EncodeWidth(i: Instr)
    requires Valid(i)
    ensures |Encode(i)| == InstrWidth(i)
  {
  }

  /** The instruction whose bytes are exactly `w`. */
  function Interpret(w: seq<byte>): Instr
    requires |w| > 0 && |w| == Width(w[0])
  {
    var b := w[0];
    if b == ICONST then IConst(FromBe32(w[1], w[2], w[3], w[4]))
    else if b == FCONST then FConst(Float(w[1], w[2], w[3], w[4]))
    else if b == ILOAD then ILoad(w[1])
    else if b == ISAVE then ISave(w[1])
    else if b == FLOAD then FLoad(w[1])
    else if b == FSAVE then FSave(w[1])
    else if b == JMP then Jmp(FromBe16(w[1], w[2]))
    else if b == RJMP then RJmp(FromBe16(w[1], w[2]))
    else if b == JEZ then Jez(FromBe16(w[1], w[2]))
    else if b == JNEZ then Jnez(FromBe16(w[1], w[2]))
    else if b == CALL then Invoke(FromBe16(w[1], w[2]))
    else if b == I2F_OP then I2F
    else if IntOperator(b).Some? then IArith(IntOperator(b).value)
    else if FltOperator(b).Some? then FArith(FltOperator(b).value)
    else Unhandled(b)
  }

  /** The dispatcher's view at address `pc`; `None` when the operand bytes lie
      beyond the end of the code. */
  function Fetch(code: seq<byte>, pc: nat): (r: Option<Instr>)
    requires pc < |code|
    ensures r.Some? <==> pc + Width(code[pc]) <= |code|
  {
    var n := Width(code[pc]);
    if pc + n <= |code| then Some(Interpret(code[pc..pc + n])) else None
  }

  lemma InterpretEncode(i: Instr)
    requires Valid(i)
    ensures Interpret(Encode(i)) == i
  {
    match i
    case IConst(v) => Be32RoundTrip(v);
    case _ =>
  }

  /** Fetching inside a longer code string. */
  lemma FetchIn(pre: seq<byte>, code: seq<byte>, post: seq<byte>, pc: nat)
    requires pc < |code| && Fetch(code, pc).Some?
    ensures Fetch(pre + code + post, |pre| + pc) == Fetch(code, pc)
  {
    var whole := pre + code + post;
    assert whole[|pre| + pc] == code[pc];
    var n := Width(code[pc]);
    assert whole[|pre| + pc..|pre| + pc + n] == code[pc..pc + n];
  }

  lemma FetchEncoded(pre: seq<byte>, i: Instr, post: seq<byte>)
    requires Valid(i)
    ensures Fetch(pre + Encode(i) + post, |pre|) == Some(i)
  {
    var w := Encode(i);
    assert w[0..|w|] == w;
    InterpretEncode(i);
    FetchIn(pre, w, post, 0);
  }

  // ---- assembly ----

  function Assemble(listing: seq<Instr>): seq<byte>
    requires forall i :: i in listing ==> Valid(i)
  {
    if listing == [] then [] else Encode(listing[0]) + Assemble(listing[1..])
  }

  /** Linear sweep: `None` when the last instruction is truncated. */
  function Disassemble(code: seq<byte>): Option<seq<Instr>> {
    if code == [] then Some([]) else
      match Fetch(code, 0)
      case None => None
      case Some(i) =>
        match Disassemble(code[Width(code[0])..])
        case None => None
        case Some(rest) => Some([i] + rest)
  }

  lemma DisassembleCons(i: Instr, code: seq<byte>)
    requires Valid(i) && Disassemble(code).Some?
    ensures Disassemble(Encode(i) + code) == Some([i] + Disassemble(code).value)
  {
    var w := Encode(i);
    FetchEncoded([], i, code);
    assert [] + w + code == w + code;
    assert (w + code)[|w|..] == code;
  }

  lemma {:induction false} AssembleRoundTrip(listing: seq<Instr>)
    requires forall i :: i in listing ==> Valid(i)
    ensures Disassemble(Assemble(listing)) == Some(listing)
  {
    if listing != [] {
      AssembleRoundTrip(listing[1..]);
      DisassembleCons(listing[0], Assemble(listing[1..]));
      assert [listing[0]] + listing[1..] == listing;
    }
  }

  lemma InterpretValid(w: seq<byte>)
    requires |w| > 0 && |w| == Width(w[0])
    ensures Valid(Interpret(w)) && Encode(Interpret(w)) == w
  {
    if w[0] == ICONST {
      Be32OfFrom(w[1], w[2], w[3], w[4]);
    }
  }

  lemma Be32OfFrom(b0: byte, b1: byte, b2: byte, b3: byte)
    ensures Be32(FromBe32(b0, b1, b2, b3)) == [b0, b1, b2, b3]
  {
    var w0 := b0;
    var w1 := w0 * 0x100 + b1;
    var w2 := w1 * 0x100 + b2;
    var w3 := w2 * 0x100 + b3;
    assert w3 / 0x100 == w2 && w3 % 0x100 == b3;
    assert w2 / 0x100 == w1 && w2 % 0x100 == b2;
    assert w1 / 0x100 == w0 && w1 % 0x100 == b1;
    assert w3 / 0x1_0000 == w3 / 0x100 / 0x100;
    assert w3 / 0x100_0000 == w3 / 0x1_0000 / 0x100;
  }

  /** And back: a code string that sweeps cleanly is the assembly of its listing. */
  lemma {:induction false} DisassembleRoundTrip(code: seq<byte>)
    requires Disassemble(code).Some?
    ensures forall i :: i in Disassemble(code).value ==> Valid(i)
    ensures Assemble(Disassemble(code).value) == code
  {
    hide Encode, Interpret, Valid;
    if code != [] {
      var n := Width(code[0]);
      DisassembleRoundTrip(code[n..]);
      InterpretValid(code[0..n]);
      var listing := Disassemble(code).value;
      assert listing[1..] == Disassemble(code[n..]).value;
      assert code == code[0..n] + code[n..];
    }
  }
}
