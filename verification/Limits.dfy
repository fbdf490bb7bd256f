/** Where the jumps of an `if` or `while` land, exactly. */
module Limits {
  import opened Words
  import opened Language
  import opened Bytecode
  import opened Machine
  import opened Runs
  import opened Codegen
  import opened ExprCorrect
  import opened Layout

  lemma TailShape(g: Globals, c: seq<byte>, t: seq<byte>, f: seq<byte>)
    requires g.Ok() && |WithExit(t, f)| < 0x1_0000
    ensures c + IfTail(g, t, f) == c + (Encode(Jez(Short(g, |WithExit(t, f)|))) + (WithExit(t, f) + f))
  {
    hide Encode;
  }

  /** On a zero condition an `if` continues at its `else` block exactly when the
      `then` block with its exit jump is shorter than the operand can say. */
  lemma IfJumpExact(m: Vm, g: Globals, c: seq<byte>, t: seq<byte>, f: seq<byte>, d: Data, nc: nat)
    requires g.Ok() && |WithExit(t, f)| < 0x1_0000
    requires Fares(m, c, d, nc, Ends(WithTop(d, IntV(0))))
    ensures var lands := |c| + 3 + Short(g, |WithExit(t, f)|);
            && Goes(m, c + IfTail(g, t, f), 0, d, nc + 1, Ends(d), lands)
            && (lands == |c| + 3 + |WithExit(t, f)| <==> |WithExit(t, f)| < g.reach)
  {
    hide Encode, Goes, Fares;
    var te := WithExit(t, f);
    Decide(m, c, Short(g, |te|), te + f, d, nc, 0);
    TailShape(g, c, t, f);
  }

  /** The exit jump, where there is one. */
  function Exit(f: seq<byte>): seq<byte> { if |f| < 0x1_0000 then Encode(Jmp(|f|)) else [] }

  lemma ExitIs(t: seq<byte>, f: seq<byte>)
    ensures WithExit(t, f) == t + Exit(f) && |Exit(f)| == (if |f| < 0x1_0000 then 3 else 0)
  {
    if |f| < 0x1_0000 { JumpWidth(|f|); }
  }

  lemma ExitShape(g: Globals, c: seq<byte>, t: seq<byte>, f: seq<byte>)
    requires g.Ok() && |WithExit(t, f)| < 0x1_0000
    ensures var (jez, code) := (Encode(Jez(Short(g, |WithExit(t, f)|))), c + IfTail(g, t, f));
            && |jez| == 3 && |Exit(f)| == (if |f| < 0x1_0000 then 3 else 0)
            && code == c + (jez + (WithExit(t, f) + f)) && |code| == |c| + 3 + |t| + |Exit(f)| + |f|
            && code[|c| + 3..|c| + 3 + |t|] == t && code[|c| + 3 + |t|..] == Exit(f) + f
  {
    hide Encode, IfTail, WithExit, Exit;
    TailShape(g, c, t, f);
    JumpWidth(Short(g, |WithExit(t, f)|));
    ExitIs(t, f);
    assert WithExit(t, f) + f == t + (Exit(f) + f);
    Slices(c, Encode(Jez(Short(g, |WithExit(t, f)|))), t, Exit(f) + f);
  }

  /** Behind the `then` part of a true condition an `if` continues at its end exactly
      when the `else` part fits the exit jump; otherwise the jump is left out and the
      `else` part runs as well. */
  lemma IfExitExact(m: Vm, g: Globals, c: seq<byte>, t: seq<byte>, f: seq<byte>, d: Data, nc: nat, i: int32,
                    nt: nat, d1: Data)
    returns (n: nat)
    requires g.Ok() && |WithExit(t, f)| < 0x1_0000 && i != 0
    requires Fares(m, c, d, nc, Ends(WithTop(d, IntV(i)))) && Fares(m, t, d, nt, Ends(d1))
    ensures var code := c + IfTail(g, t, f);
            var lands := if |f| < 0x1_0000 then |code| else |code| - |f|;
            && Goes(m, code, 0, d, n, Ends(d1), lands)
            && |f| <= |code| && code[|code| - |f|..] == f && (lands == |code| <==> |f| < 0x1_0000)
  {
    hide Encode, Goes, IfTail, WithExit, Exit;
    var (te, code) := (WithExit(t, f), c + IfTail(g, t, f));
    var at := |c| + 3 + |t|;
    ExitShape(g, c, t, f);
    assert code[at..][|Exit(f)|..] == f;
    Decide(m, c, Short(g, |te|), te + f, d, nc, i);
    InsideAt(m, code, |c| + 3, t, d, nt, Ends(d1));
    Join(m, code, 0, d, nc + 1, d, |c| + 3, nt, Ends(d1), at);
    n := nc + 1 + nt;
    if |f| < 0x1_0000 {
      ExitRun(m, code, at, f, d1);
      Join(m, code, 0, d, n, d1, at, 1, Ends(d1), |code|);
      n := n + 1;
    }
  }

  lemma ExitRun(m: Vm, code: seq<byte>, at: nat, f: seq<byte>, d: Data)
    requires at <= |code| && code[at..] == Exit(f) + f && |f| < 0x1_0000
    ensures Goes(m, code, at, d, 1, Ends(d), |code|)
  {
    JumpWidth(|f|);
    hide Goes, Encode;
    JmpRun(m, code[..at], |f|, f, d);
    assert code[..at] + Exit(f) + f == code;
  }

  /** A `then` part that is too long even for two operand bytes is not emitted at all,
      nor is the `else` part: the condition's value is all that is left. */
  lemma IfDropped(m: Vm, g: Globals, c: seq<byte>, t: seq<byte>, f: seq<byte>, d: Data, nc: nat, v: Value)
    requires g.Ok() && |WithExit(t, f)| >= 0x1_0000
    requires Fares(m, c, d, nc, Ends(WithTop(d, v)))
    ensures Fares(m, c + IfTail(g, t, f), d, nc, Ends(WithTop(d, v)))
  {
    hide Fares;
    assert c + [] == c;
  }

  lemma Slices(a: seq<byte>, b: seq<byte>, c: seq<byte>, d: seq<byte>)
    ensures var s := a + (b + (c + d));
            s[|a| + |b|..|a| + |b| + |c|] == c && s[|a| + |b| + |c|..|s|] == d
  {
  }

  lemma WhileShape(g: Globals, c: seq<byte>, b: seq<byte>)
    requires g.Ok()
    ensures var jez, rjmp := Encode(Jez(Short(g, |b| + 3))), Encode(RJmp(Short(g, |c| + |b| + 6)));
            && |jez| == |rjmp| == 3
            && c + WhileTail(g, c, b) == c + (jez + (b + rjmp))
  {
    JumpWidth(Short(g, |b| + 3));
    JumpWidth(Short(g, |c| + |b| + 6));
    hide Encode;
  }

  /** A `while` is left behind its last byte exactly when the body fits the exit
      jump ... */
  lemma WhileExitExact(m: Vm, g: Globals, c: seq<byte>, b: seq<byte>, d: Data, nc: nat)
    requires g.Ok()
    requires Fares(m, c, d, nc, Ends(WithTop(d, IntV(0))))
    ensures var code, lands := c + WhileTail(g, c, b), |c| + 3 + Short(g, |b| + 3);
            && Goes(m, code, 0, d, nc + 1, Ends(d), lands)
            && (lands == |code| <==> |b| + 3 < g.reach)
  {
    hide Encode, Goes, Fares, WhileTail;
    WhileShape(g, c, b);
    Decide(m, c, Short(g, |b| + 3), b + Encode(RJmp(Short(g, |c| + |b| + 6))), d, nc, 0);
  }

  /** ... and closes its loop at its first byte exactly when the whole statement
      fits the back jump. */
  lemma WhileBackExact(m: Vm, g: Globals, c: seq<byte>, b: seq<byte>, d: Data)
    requires g.Ok()
    ensures var code, sum := c + WhileTail(g, c, b), |c| + |b| + 6;
            && |code| == sum
            && Goes(m, code, |c| + 3 + |b|, d, 1, Ends(d), sum - Short(g, sum))
            && (sum - Short(g, sum) == 0 <==> sum < g.reach)
  {
    hide Encode, Goes, WhileTail;
    WhileShape(g, c, b);
    var jez, rjmp := Encode(Jez(Short(g, |b| + 3))), Encode(RJmp(Short(g, |c| + |b| + 6)));
    Slices(c, jez, b, rjmp);
    SingleAt(m, c + WhileTail(g, c, b), |c| + 3 + |b|, RJmp(Short(g, |c| + |b| + 6)), d);
  }

  lemma LongShape(g: Globals, c: seq<byte>, t: seq<byte>)
    requires g.Ok() && g.reach == AS_WRITTEN && |t| + 3 == 0x100
    ensures |Encode(Jez(0))| == |Encode(Jmp(0))| == 3
    ensures c + IfTail(g, t, []) == c + (Encode(Jez(0)) + (t + Encode(Jmp(0))))
  {
    JumpWidth(0);
    hide Encode;
    TailShape(g, c, t, []);
    assert t + Encode(Jmp(0)) + [] == t + Encode(Jmp(0));
  }

  /** With the operand's high byte always zero, a `then` part of exactly 0x100
      bytes is jumped over by a distance of zero: it runs although the condition
      is false. */
  lemma LongThenRunsAnyway(m: Vm, g: Globals, c: seq<byte>, t: seq<byte>, d: Data, nc: nat, nt: nat, d1: Data)
    returns (n: nat)
    requires g.Ok() && g.reach == AS_WRITTEN && |t| + 3 == 0x100
    requires Fares(m, c, d, nc, Ends(WithTop(d, IntV(0)))) && Fares(m, t, d, nt, Ends(d1))
    ensures Fares(m, c + IfTail(g, t, []), d, n, Ends(d1))
  {
    hide Encode, Goes, IfTail;
    LongShape(g, c, t);
    var jez, jmp := Encode(Jez(0)), Encode(Jmp(0));
    var code := c + (jez + (t + jmp));
    Slices(c, jez, t, jmp);
    Decide(m, c, 0, t + jmp, d, nc, 0);
    InsideAt(m, code, |c| + 3, t, d, nt, Ends(d1));
    SingleAt(m, code, |c| + 3 + |t|, Jmp(0), d1);
    Join(m, code, 0, d, nc + 1, d, |c| + 3, nt, Ends(d1), |c| + 3 + |t|);
    Join(m, code, 0, d, nc + 1 + nt, d1, |c| + 3 + |t|, 1, Ends(d1), |code|);
    n := nc + 1 + nt + 1;
  }

  // ---- conditions that leave no value ----

  /** A condition that is an undefined name compiles to nothing, so the jump of the `if`
      or `while` pops an operand nobody pushed: with an empty stack the first step is
      outside the frame's memory. */
  lemma NoCondition(m: Vm, g: Globals, t: seq<byte>, f: seq<byte>, d: Data)
    requires g.Ok() && |WithExit(t, f)| < 0x1_0000 && d.stack == []
    ensures Takes(m, Mid(CodeOf(ENone) + IfTail(g, t, f), 0, d), 1, Trap(Memory))
    ensures Takes(m, Mid(CodeOf(ENone) + WhileTail(g, CodeOf(ENone), t), 0, d), 1, Trap(Memory))
  {
    hide Takes, Encode, IfTail, WhileTail;
    TailShape(g, [], t, f);
    WhileShape(g, [], t);
    PopsNothing(m, Short(g, |WithExit(t, f)|), WithExit(t, f) + f, d);
    PopsNothing(m, Short(g, |t| + 3), t + Encode(RJmp(Short(g, |t| + 6))), d);
  }

  lemma PopsNothing(m: Vm, dist: nat, rest: seq<byte>, d: Data)
    requires dist < 0x1_0000 && d.stack == []
    ensures Takes(m, Mid([] + (Encode(Jez(dist)) + rest), 0, d), 1, Trap(Memory))
  {
    hide Encode, Takes;
    Single(m, [], Jez(dist), rest, d);
    assert [] + Encode(Jez(dist)) + rest == [] + (Encode(Jez(dist)) + rest);
    assert Goes(m, [] + (Encode(Jez(dist)) + rest), 0, d, 1, Dies(Memory), 0);
  }
}
