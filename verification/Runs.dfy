/** Runs of code segments: what happens between entering a segment and leaving
    it, and how such runs compose. */
module Runs {
  import opened Words
  import opened Language
  import opened Bytecode
  import opened Machine

  /** The part of a frame that survives from instruction to instruction. */
  datatype Data = Data(stack: seq<Value>, locals: seq<Word>, cap: nat)

  /** How a run of a segment continues: it leaves with new data, it fails, or it
      is still going on. */
  datatype Fate = Ends(d: Data) | Dies(why: Fault) | Lasts

  function Mid(code: seq<byte>, pc: int, d: Data): Frames {
    Frames([], Frame(code, pc, d.stack, d.locals, d.cap))
  }

  /** From address `pc`, `n` steps meet `fate`; a run that ends stands at `exit`. */
  ghost predicate Goes(m: Vm, code: seq<byte>, pc: int, d: Data, n: nat, fate: Fate, exit: int) {
    match fate
    case Ends(d') => Takes(m, Mid(code, pc, d), n, At(Mid(code, exit, d')))
    case Dies(why) => why != Truncated && Takes(m, Mid(code, pc, d), n, Trap(why))
    case Lasts => exists s :: Takes(m, Mid(code, pc, d), n, At(s)) && !Halted(s)
  }

  /** A whole segment, entered at its first byte and left behind its last. */
  ghost predicate Fares(m: Vm, code: seq<byte>, d: Data, n: nat, fate: Fate) {
    Goes(m, code, 0, d, n, fate, |code|)
  }

  lemma Join(m: Vm, code: seq<byte>, pc: int, d: Data, n1: nat, d1: Data, pc1: int, n2: nat, fate: Fate, exit: int)
    requires Goes(m, code, pc, d, n1, Ends(d1), pc1)
    requires Goes(m, code, pc1, d1, n2, fate, exit)
    ensures Goes(m, code, pc, d, n1 + n2, fate, exit)
  {
    hide Takes;
    var s, s1 := Mid(code, pc, d), Mid(code, pc1, d1);
    match fate
    case Ends(d') => TakesTrans(m, s, n1, s1, n2, At(Mid(code, exit, d')));
    case Dies(why) => TakesTrans(m, s, n1, s1, n2, Trap(why));
    case Lasts =>
      var z :| Takes(m, s1, n2, At(z)) && !Halted(z);
      TakesTrans(m, s, n1, s1, n2, At(z));
  }

  lemma Inside(m: Vm, pre: seq<byte>, code: seq<byte>, post: seq<byte>, d: Data, n: nat, fate: Fate)
    requires Fares(m, code, d, n, fate)
    ensures Goes(m, pre + code + post, |pre|, d, n, fate, |pre| + |code|)
  {
    hide Takes;
    var s := Mid(code, 0, d);
    assert Embed([], pre, post, s) == Mid(pre + code + post, |pre|, d);
    assert Deeper(m, []) == m;
    match fate
    case Ends(d') => TakesEmbed(m, s, n, At(Mid(code, |code|, d')), [], pre, post);
    case Dies(why) => TakesEmbed(m, s, n, Trap(why), [], pre, post);
    case Lasts =>
      var z :| Takes(m, s, n, At(z)) && !Halted(z);
      TakesEmbed(m, s, n, At(z), [], pre, post);
      NotHalted(z, pre, post);
  }

  /** The same, with the place given by its offset. */
  lemma InsideAt(m: Vm, code: seq<byte>, lo: nat, piece: seq<byte>, d: Data, n: nat, fate: Fate)
    requires lo + |piece| <= |code| && code[lo..lo + |piece|] == piece
    requires Fares(m, piece, d, n, fate)
    ensures Goes(m, code, lo, d, n, fate, lo + |piece|)
  {
    hide Goes;
    Inside(m, code[..lo], piece, code[lo + |piece|..], d, n, fate);
    assert code == code[..lo] + piece + code[lo + |piece|..];
  }

  lemma NotHalted(z: Frames, pre: seq<byte>, post: seq<byte>)
    requires !Halted(z)
    ensures !Halted(Embed([], pre, post, z))
  {
  }

  lemma EmptyRun(m: Vm, d: Data)
    ensures Fares(m, [], d, 0, Ends(d))
  {
    hide Step;
  }

  /** Two segments in a row. */
  lemma Sequence(m: Vm, c1: seq<byte>, c2: seq<byte>, d: Data, n1: nat, d1: Data, n2: nat, fate: Fate)
    requires Fares(m, c1, d, n1, Ends(d1))
    requires Fares(m, c2, d1, n2, fate)
    ensures Fares(m, c1 + c2, d, n1 + n2, fate)
  {
    hide Goes;
    var code := c1 + c2;
    assert Goes(m, code, 0, d, n1, Ends(d1), |c1|) by {
      Inside(m, [], c1, c2, d, n1, Ends(d1));
      assert [] + c1 + c2 == code;
    }
    assert Goes(m, code, |c1|, d1, n2, fate, |code|) by {
      Inside(m, c1, c2, [], d1, n2, fate);
      assert c1 + c2 + [] == code;
    }
    Join(m, code, 0, d, n1, d1, |c1|, n2, fate, |code|);
  }

  /** A first segment that is never left. */
  lemma Stuck(m: Vm, c1: seq<byte>, c2: seq<byte>, d: Data, n: nat, fate: Fate)
    requires Fares(m, c1, d, n, fate) && !fate.Ends?
    ensures Fares(m, c1 + c2, d, n, fate)
  {
    hide Step;
    Inside(m, [], c1, c2, d, n, fate);
    assert [] + c1 + c2 == c1 + c2;
  }

  function AsFrame(code: seq<byte>, pc: int, d: Data): Frame {
    Frame(code, pc, d.stack, d.locals, d.cap)
  }

  lemma HandleWhole(m: Vm, i: Instr, f: Frame)
    requires !i.Invoke?
    ensures Handle(m, i, f) != Bad(Truncated)
  {
  }

  lemma Dispatch(m: Vm, code: seq<byte>, pc: nat, i: Instr, d: Data)
    requires pc < |code| && Fetch(code, pc) == Some(i) && !i.Invoke?
    ensures match Handle(m, i, AsFrame(code, pc, d))
            case Ok(f) => Goes(m, code, pc, d, 1, Ends(Data(f.stack, f.locals, f.cap)), f.pc)
            case Bad(why) => forall exit :: Goes(m, code, pc, d, 1, Dies(why), exit)
  {
    var s := Mid(code, pc, d);
    HandleWhole(m, i, s.top);
    hide Handle, Fetch;
    match Handle(m, i, s.top)
    case Ok(f) => assert Takes(m, Mid(code, f.pc, Data(f.stack, f.locals, f.cap)), 0, At(Frames([], f)));
    case Bad(why) =>
  }

  /** One instruction at its place in the code. */
  lemma Single(m: Vm, pre: seq<byte>, i: Instr, post: seq<byte>, d: Data)
    requires Valid(i) && !i.Invoke?
    ensures var code := pre + Encode(i) + post;
            match Handle(m, i, AsFrame(code, |pre|, d))
            case Ok(f) => Goes(m, code, |pre|, d, 1, Ends(Data(f.stack, f.locals, f.cap)), f.pc)
            case Bad(why) => forall exit :: Goes(m, code, |pre|, d, 1, Dies(why), exit)
  {
    FetchEncoded(pre, i, post);
    hide Goes, Encode, Handle, Fetch;
    Dispatch(m, pre + Encode(i) + post, |pre|, i, d);
  }

  lemma SingleAt(m: Vm, code: seq<byte>, lo: nat, i: Instr, d: Data)
    requires Valid(i) && !i.Invoke?
    requires lo + |Encode(i)| <= |code| && code[lo..lo + |Encode(i)|] == Encode(i)
    ensures match Handle(m, i, AsFrame(code, lo, d))
            case Ok(f) => Goes(m, code, lo, d, 1, Ends(Data(f.stack, f.locals, f.cap)), f.pc)
            case Bad(why) => forall exit :: Goes(m, code, lo, d, 1, Dies(why), exit)
  {
    hide Goes, Encode, Handle;
    Single(m, code[..lo], i, code[lo + |Encode(i)|..], d);
    assert code == code[..lo] + Encode(i) + code[lo + |Encode(i)|..];
  }

  /** A segment of one instruction that falls through. */
  lemma Simple(m: Vm, i: Instr, d: Data)
    requires Valid(i) && !i.Invoke?
    ensures match Handle(m, i, AsFrame(Encode(i), 0, d))
            case Ok(f) => f.pc == |Encode(i)| ==> Fares(m, Encode(i), d, 1, Ends(Data(f.stack, f.locals, f.cap)))
            case Bad(why) => Fares(m, Encode(i), d, 1, Dies(why))
  {
    hide Takes;
    Single(m, [], i, [], d);
    assert [] + Encode(i) + [] == Encode(i);
  }

  function FreshData(m: Vm, func: Func, vs: seq<Value>): Data
    requires |vs| <= func.nvars
  {
    var f := Entry(m, func, vs);
    Data(f.stack, f.locals, f.cap)
  }

  lemma Entering(m: Vm, pre: seq<byte>, index: nat, d: Data, vs: seq<Value>)
    requires index < 0x1_0000 && index in m.funcs && m.limit >= 2
    requires |vs| == m.funcs[index].argc <= m.funcs[index].nvars
    requires |vs| <= |d.stack| && d.stack[|d.stack| - |vs|..] == vs
    ensures var s := Mid(pre + Encode(Invoke(index)), |pre|, d);
            !Halted(s) && Step(m, s) == At(Frames([s.top], Entry(m, m.funcs[index], vs)))
  {
    hide Handle;
    var code := pre + Encode(Invoke(index));
    FetchEncoded(pre, Invoke(index), []);
    assert pre + Encode(Invoke(index)) + [] == code;
    var top := Mid(code, |pre|, d).top;
    assert [] + [top] == [top];
  }

  /** A function body running on its own, and on top of a caller's frame. */
  lemma Above(m: Vm, caller: Frame, body: seq<byte>, d: Data, n: nat, r: Result)
    requires m.limit >= 1 && r != Trap(Truncated)
    requires Takes(m.(limit := m.limit - 1), Mid(body, 0, d), n, r)
    ensures Takes(m, Frames([caller], Mid(body, 0, d).top), n, EmbedResult([caller], [], [], r))
  {
    hide Takes;
    var m' := m.(limit := m.limit - 1);
    assert Deeper(m', [caller]) == m;
    assert [] + body + [] == body;
    assert Embed([caller], [], [], Mid(body, 0, d)) == Frames([caller], Mid(body, 0, d).top);
    TakesEmbed(m', Mid(body, 0, d), n, r, [caller], [], []);
  }

  lemma Returning(m: Vm, s: Frames)
    requires s.below != [] && !Live(s.top)
    ensures Takes(m, s, 1, At(Return(s)))
  {
    assert Takes(m, Return(s), 0, At(Return(s)));
  }

  lemma StepFirst(m: Vm, s: Frames, s1: Frames, n: nat, r: Result)
    requires !Halted(s) && Step(m, s) == At(s1) && Takes(m, s1, n, r)
    ensures Takes(m, s, n + 1, r)
  {
    hide Step;
  }

  /** A call runs the callee's body in a frame of its own, on top of the caller's
      untouched frame, and comes back with that frame as it was. */
  lemma Calling(m: Vm, pre: seq<byte>, index: nat, d: Data, vs: seq<Value>, n: nat, fate: Fate)
    returns (n': nat, fate': Fate)
    requires index < 0x1_0000 && index in m.funcs && m.limit >= 2
    requires |vs| == m.funcs[index].argc <= m.funcs[index].nvars
    requires |vs| <= |d.stack| && d.stack[|d.stack| - |vs|..] == vs
    requires Fares(m.(limit := m.limit - 1), m.funcs[index].body, FreshData(m, m.funcs[index], vs), n, fate)
    ensures n' > n && fate' == (if fate.Ends? then Ends(d) else fate)
    ensures Goes(m, pre + Encode(Invoke(index)), |pre|, d, n', fate', |pre| + 3)
  {
    hide Step, Takes, Enter, Encode;
    var code, body := pre + Encode(Invoke(index)), m.funcs[index].body;
    var d1 := FreshData(m, m.funcs[index], vs);
    var s := Mid(code, |pre|, d);
    var s1 := Frames([s.top], Mid(body, 0, d1).top);
    Entering(m, pre, index, d, vs);
    fate' := if fate.Ends? then Ends(d) else fate;
    n' := if fate.Ends? then n + 2 else n + 1;
    match fate
    case Dies(why) =>
      Above(m, s.top, body, d1, n, Trap(why));
      StepFirst(m, s, s1, n, Trap(why));
    case Lasts =>
      var z :| Takes(m.(limit := m.limit - 1), Mid(body, 0, d1), n, At(z)) && !Halted(z);
      Above(m, s.top, body, d1, n, At(z));
      StepFirst(m, s, s1, n, At(Embed([s.top], [], [], z)));
    case Ends(d') =>
      var z := Mid(body, |body|, d');
      Above(m, s.top, body, d1, n, At(z));
      var s2 := Embed([s.top], [], [], z);
      assert s2.below == [s.top] && !Live(s2.top);
      Returning(m, s2);
      assert Return(s2) == Mid(code, |pre| + 3, d);
      TakesTrans(m, s1, n, s2, 1, At(Return(s2)));
      StepFirst(m, s, s1, n + 1, At(Return(s2)));
  }
}
