/** How the spliced bytes of `if`, `while` and calls run, given runs of their parts. */
module Layout {
  import opened Words
  import opened Ast
  import opened Language
  import opened Bytecode
  import opened Machine
  import opened Runs
  import opened Codegen
  import opened ExprCorrect

  lemma JumpWidth(dist: nat)
    requires dist < 0x1_0000
    ensures |Encode(Jez(dist))| == |Encode(Jmp(dist))| == |Encode(RJmp(dist))| == 3
  {
  }

  lemma JezRun(m: Vm, pre: seq<byte>, dist: nat, post: seq<byte>, d: Data, i: int32)
    requires dist < 0x1_0000
    ensures Goes(m, pre + Encode(Jez(dist)) + post, |pre|, WithTop(d, IntV(i)), 1, Ends(d),
                 |pre| + 3 + if i == 0 then dist else 0)
  {
    hide Goes, Encode;
    Single(m, pre, Jez(dist), post, WithTop(d, IntV(i)));
    assert WithTop(d, IntV(i)).stack[..|d.stack|] == d.stack;
  }

  lemma JezConfused(m: Vm, pre: seq<byte>, dist: nat, post: seq<byte>, d: Data, v: Value, exit: int)
    requires dist < 0x1_0000 && v.FltV?
    ensures Goes(m, pre + Encode(Jez(dist)) + post, |pre|, WithTop(d, v), 1, Dies(Confused), exit)
  {
    hide Goes, Encode;
    Single(m, pre, Jez(dist), post, WithTop(d, v));
  }

  lemma JmpRun(m: Vm, pre: seq<byte>, dist: nat, post: seq<byte>, d: Data)
    requires dist < 0x1_0000
    ensures Goes(m, pre + Encode(Jmp(dist)) + post, |pre|, d, 1, Ends(d), |pre| + 3 + dist)
  {
    hide Goes, Encode;
    Single(m, pre, Jmp(dist), post, d);
  }

  lemma RJmpRun(m: Vm, pre: seq<byte>, dist: nat, post: seq<byte>, d: Data)
    requires dist < 0x1_0000
    ensures Goes(m, pre + Encode(RJmp(dist)) + post, |pre|, d, 1, Ends(d), |pre| + 3 - dist)
  {
    hide Goes, Encode;
    Single(m, pre, RJmp(dist), post, d);
  }

  /** The condition ran, the value on top decides: the code continues behind the
      jump or at its target. */
  lemma Decide(m: Vm, c: seq<byte>, dist: nat, rest: seq<byte>, d: Data, nc: nat, i: int32)
    requires dist < 0x1_0000
    requires Fares(m, c, d, nc, Ends(WithTop(d, IntV(i))))
    ensures var code := c + (Encode(Jez(dist)) + rest);
            Goes(m, code, 0, d, nc + 1, Ends(d), |c| + 3 + if i == 0 then dist else 0)
  {
    hide Goes, Encode;
    JumpWidth(dist);
    var jez := Encode(Jez(dist));
    var code := c + (jez + rest);
    Inside(m, [], c, jez + rest, d, nc, Ends(WithTop(d, IntV(i))));
    assert [] + c + (jez + rest) == code;
    JezRun(m, c, dist, rest, d, i);
    assert c + jez + rest == code;
    Join(m, code, 0, d, nc, WithTop(d, IntV(i)), |c|, 1, Ends(d), |c| + 3 + if i == 0 then dist else 0);
  }

  lemma DecideConfused(m: Vm, c: seq<byte>, dist: nat, rest: seq<byte>, d: Data, nc: nat, v: Value)
    requires dist < 0x1_0000 && v.FltV?
    requires Fares(m, c, d, nc, Ends(WithTop(d, v)))
    ensures Fares(m, c + (Encode(Jez(dist)) + rest), d, nc + 1, Dies(Confused))
  {
    hide Goes, Encode;
    JumpWidth(dist);
    var jez := Encode(Jez(dist));
    var code := c + (jez + rest);
    Inside(m, [], c, jez + rest, d, nc, Ends(WithTop(d, v)));
    assert [] + c + (jez + rest) == code;
    JezConfused(m, c, dist, rest, d, v, |code|);
    assert c + jez + rest == code;
    Join(m, code, 0, d, nc, WithTop(d, v), |c|, 1, Dies(Confused), |code|);
  }

  function IfBytes(c: seq<byte>, t: seq<byte>, f: seq<byte>): seq<byte>
    requires |t| + 3 < 0x1_0000 && |f| < 0x1_0000
  {
    c + (Encode(Jez(|t| + 3)) + (t + Encode(Jmp(|f|)) + f))
  }

  lemma IfTrue(m: Vm, c: seq<byte>, t: seq<byte>, f: seq<byte>, d: Data, nc: nat, i: int32, nt: nat, fate: Fate)
    returns (n: nat)
    requires |t| + 3 < 0x1_0000 && |f| < 0x1_0000 && i != 0
    requires Fares(m, c, d, nc, Ends(WithTop(d, IntV(i)))) && Fares(m, t, d, nt, fate)
    ensures n >= nt && Fares(m, IfBytes(c, t, f), d, n, fate)
  {
    hide Goes, Encode;
    JumpWidth(|t| + 3);
    JumpWidth(|f|);
    var jez, jmp := Encode(Jez(|t| + 3)), Encode(Jmp(|f|));
    var code := IfBytes(c, t, f);
    Decide(m, c, |t| + 3, t + jmp + f, d, nc, i);
    Inside(m, c + jez, t, jmp + f, d, nt, fate);
    assert c + jez + t + (jmp + f) == code;
    if fate.Ends? {
      JmpRun(m, c + jez + t, |f|, f, fate.d);
      assert c + jez + t + jmp + f == code;
      Join(m, code, 0, d, nc + 1, d, |c| + 3, nt, fate, |c| + 3 + |t|);
      Join(m, code, 0, d, nc + 1 + nt, fate.d, |c| + 3 + |t|, 1, fate, |code|);
      n := nc + 1 + nt + 1;
    } else {
      Anywhere(m, code, |c| + 3, d, nt, fate, |c| + 3 + |t|, |code|);
      Join(m, code, 0, d, nc + 1, d, |c| + 3, nt, fate, |code|);
      n := nc + 1 + nt;
    }
  }

  /** A run that is not left has no particular exit. */
  lemma Anywhere(m: Vm, code: seq<byte>, pc: int, d: Data, n: nat, fate: Fate, exit1: int, exit2: int)
    requires Goes(m, code, pc, d, n, fate, exit1) && !fate.Ends?
    ensures Goes(m, code, pc, d, n, fate, exit2)
  {
  }

  lemma IfFalse(m: Vm, c: seq<byte>, t: seq<byte>, f: seq<byte>, d: Data, nc: nat, nf: nat, fate: Fate)
    returns (n: nat)
    requires |t| + 3 < 0x1_0000 && |f| < 0x1_0000
    requires Fares(m, c, d, nc, Ends(WithTop(d, IntV(0)))) && Fares(m, f, d, nf, fate)
    ensures n >= nf && Fares(m, IfBytes(c, t, f), d, n, fate)
  {
    hide Goes, Encode;
    JumpWidth(|t| + 3);
    JumpWidth(|f|);
    var jez, jmp := Encode(Jez(|t| + 3)), Encode(Jmp(|f|));
    var code := IfBytes(c, t, f);
    Decide(m, c, |t| + 3, t + jmp + f, d, nc, 0);
    var pre := c + jez + t + jmp;
    Inside(m, pre, f, [], d, nf, fate);
    assert pre + f + [] == code;
    Join(m, code, 0, d, nc + 1, d, |pre|, nf, fate, |code|);
    n := nc + 1 + nf;
  }

  function WhileBytes(c: seq<byte>, b: seq<byte>): seq<byte>
    requires |c| + |b| + 6 < 0x1_0000
  {
    c + (Encode(Jez(|b| + 3)) + (b + Encode(RJmp(|c| + |b| + 6))))
  }

  lemma WhileExit(m: Vm, c: seq<byte>, b: seq<byte>, d: Data, nc: nat)
    requires |c| + |b| + 6 < 0x1_0000
    requires Fares(m, c, d, nc, Ends(WithTop(d, IntV(0))))
    ensures Fares(m, WhileBytes(c, b), d, nc + 1, Ends(d))
  {
    hide Goes, Encode;
    JumpWidth(|b| + 3);
    JumpWidth(|c| + |b| + 6);
    Decide(m, c, |b| + 3, b + Encode(RJmp(|c| + |b| + 6)), d, nc, 0);
  }

  /** The body is never left. */
  lemma WhileStuck(m: Vm, c: seq<byte>, b: seq<byte>, d: Data, nc: nat, i: int32, nb: nat, fate: Fate)
    requires |c| + |b| + 6 < 0x1_0000 && i != 0 && !fate.Ends?
    requires Fares(m, c, d, nc, Ends(WithTop(d, IntV(i)))) && Fares(m, b, d, nb, fate)
    ensures Fares(m, WhileBytes(c, b), d, nc + 1 + nb, fate)
  {
    hide Goes, Encode;
    var code := WhileBytes(c, b);
    BodyInPlace(m, c, b, d, nc, i, nb, fate);
    Anywhere(m, code, 0, d, nc + 1 + nb, fate, |c| + 3 + |b|, |code|);
  }

  lemma BodyInPlace(m: Vm, c: seq<byte>, b: seq<byte>, d: Data, nc: nat, i: int32, nb: nat, fate: Fate)
    requires |c| + |b| + 6 < 0x1_0000 && i != 0
    requires Fares(m, c, d, nc, Ends(WithTop(d, IntV(i)))) && Fares(m, b, d, nb, fate)
    ensures Goes(m, WhileBytes(c, b), 0, d, nc + 1 + nb, fate, |c| + 3 + |b|)
  {
    hide Goes, Encode;
    JumpWidth(|b| + 3);
    JumpWidth(|c| + |b| + 6);
    var jez, rjmp := Encode(Jez(|b| + 3)), Encode(RJmp(|c| + |b| + 6));
    var code := WhileBytes(c, b);
    Decide(m, c, |b| + 3, b + rjmp, d, nc, i);
    Inside(m, c + jez, b, rjmp, d, nb, fate);
    assert c + jez + b + rjmp == code;
    Join(m, code, 0, d, nc + 1, d, |c| + 3, nb, fate, |c| + 3 + |b|);
  }

  /** One iteration leads back to the first byte. */
  lemma WhileRound(m: Vm, c: seq<byte>, b: seq<byte>, d: Data, nc: nat, i: int32, nb: nat, d1: Data)
    requires |c| + |b| + 6 < 0x1_0000 && i != 0
    requires Fares(m, c, d, nc, Ends(WithTop(d, IntV(i)))) && Fares(m, b, d, nb, Ends(d1))
    ensures Goes(m, WhileBytes(c, b), 0, d, nc + nb + 2, Ends(d1), 0)
  {
    hide Goes, Encode;
    JumpWidth(|b| + 3);
    JumpWidth(|c| + |b| + 6);
    var jez, rjmp := Encode(Jez(|b| + 3)), Encode(RJmp(|c| + |b| + 6));
    var code := WhileBytes(c, b);
    BodyInPlace(m, c, b, d, nc, i, nb, Ends(d1));
    RJmpRun(m, c + jez + b, |c| + |b| + 6, [], d1);
    assert c + jez + b + rjmp + [] == code;
    Join(m, code, 0, d, nc + 1 + nb, d1, |c| + 3 + |b|, 1, Ends(d1), 0);
  }

  lemma WhileAgain(m: Vm, c: seq<byte>, b: seq<byte>, d: Data, nc: nat, i: int32, nb: nat, d1: Data, n1: nat,
                   fate: Fate)
    returns (n: nat)
    requires |c| + |b| + 6 < 0x1_0000 && i != 0
    requires Fares(m, c, d, nc, Ends(WithTop(d, IntV(i)))) && Fares(m, b, d, nb, Ends(d1))
    requires Fares(m, WhileBytes(c, b), d1, n1, fate)
    ensures n > n1 && Fares(m, WhileBytes(c, b), d, n, fate)
  {
    hide Goes, WhileBytes;
    WhileRound(m, c, b, d, nc, i, nb, d1);
    Join(m, WhileBytes(c, b), 0, d, nc + nb + 2, d1, 0, n1, fate, |WhileBytes(c, b)|);
    n := nc + nb + 2 + n1;
  }

  /** Any non-empty code is alive at its start. */
  lemma Alive(m: Vm, code: seq<byte>, d: Data)
    requires code != []
    ensures Fares(m, code, d, 0, Lasts)
  {
    hide Step;
    assert Takes(m, Mid(code, 0, d), 0, At(Mid(code, 0, d)));
  }

  // ---- the bytes of a statement, in terms of those of its parts ----

  lemma IfLayout(g: Globals, sc: Scope, s: Stmt)
    returns (c: ECode, ct: SCode, cf: SCode, sct: Scope, scf: Scope)
    requires g.Ok() && sc.off <= |sc.vars| && s.If? && StmtCode(g, sc, s).SCode? && Fits(g, sc, s)
    ensures c == ExprCode(sc.vars, s.cond) && c.ECode?
    ensures var sc1 := Pushed(sc, c, s.cond);
            && sct == Child(sc1, sc1.ssize) && ct == BlockCode(g, sct, s.thn) && ct.SCode?
            && scf == Child(Back(sc1, ct.sc), sc1.ssize) && cf == BlockCode(g, scf, s.els) && cf.SCode?
            && StmtCode(g, sc, s).sc == Back(sc1, cf.sc)
    ensures FitsBlock(g, sct, s.thn) && FitsBlock(g, scf, s.els)
    ensures |ct.code| + 3 < g.reach && |cf.code| < 0x1_0000
    ensures StmtCode(g, sc, s).code == IfBytes(c.code, ct.code, cf.code)
  {
    hide ExprCode, Depth, Encode, BlockCode, FitsBlock;
    c := ExprCode(sc.vars, s.cond);
    var sc1 := Pushed(sc, c, s.cond);
    sct := Child(sc1, sc1.ssize);
    ct := BlockCode(g, sct, s.thn);
    scf := Child(Back(sc1, ct.sc), sc1.ssize);
    cf := BlockCode(g, scf, s.els);
    JumpWidth(|cf.code|);
  }

  lemma WhileLayout(g: Globals, sc: Scope, s: Stmt)
    returns (c: ECode, cb: SCode, child: Scope)
    requires g.Ok() && sc.off <= |sc.vars| && s.While? && StmtCode(g, sc, s).SCode? && Fits(g, sc, s)
    ensures c == ExprCode(sc.vars, s.cond) && c.ECode?
    ensures child == Child(Pushed(sc, c, s.cond), 0) && cb == BlockCode(g, child, s.body) && cb.SCode?
    ensures StmtCode(g, sc, s).sc == Back(Pushed(sc, c, s.cond), cb.sc)
    ensures FitsBlock(g, child, s.body) && |c.code| + |cb.code| + 6 < g.reach
    ensures StmtCode(g, sc, s).code == WhileBytes(c.code, cb.code)
  {
    hide ExprCode, Depth, Encode, BlockCode, FitsBlock;
    c := ExprCode(sc.vars, s.cond);
    child := Child(Pushed(sc, c, s.cond), 0);
    cb := BlockCode(g, child, s.body);
  }
}
