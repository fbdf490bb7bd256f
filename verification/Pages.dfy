/** Which programs an emitter of pages takes: 256 bytes a page for a function, 512 for
    a branch or a loop body. */
module Pages {
  import opened Words
  import opened Ast
  import opened Machine
  import opened Codegen
  import opened Acceptance
  import opened StmtCorrect
  import opened Emitter
  import opened ExprCompiler
  import opened StmtCompiler
  import FuncCompiler
  import Shell

  // ---- one piece ----

  /** Pages that `size` bytes fill, the last one perhaps in part. */
  function PagesFor(size: nat, page: pagesize): nat {
    (size + page - 1) / page
  }

  lemma DivOf(q: nat, n: pagesize, r: nat)
    requires r < n
    ensures (q * n + r) / n == q
  {
    ModOf(q, n, r);
    var p := (q * n + r) / n;
    assert p * n == q * n;
    if p > q { AtLeast(p - q, n); }
    if p < q { AtLeast(q - p, n); }
  }

  lemma PagesForIs(k: nat, page: pagesize, size: nat)
    requires k * page < size <= k * page + page
    ensures PagesFor(size, page) == k + 1
  {
    MulSucc(k, page);
    DivOf(k + 1, page, size - k * page - 1);
  }
  /** A chunk is taken exactly when it adds no more than one page. */
  lemma OnePageMore(page: pagesize, size: nat, n: nat)
    ensures Accepts(Some(page), size, n) <==> PagesFor(size + n, page) <= PagesFor(size, page) + 1
  {
    var before, room := PagesFor(size, page), Free(size, page);
    Filled(size, page);
    if n <= room {
      PagesForMonotone(size + n, size + room, page);
    } else {
      PagesForMonotone(size + room + 1, size + n, page);
    }
  }

  /** With all the room used, one page more is full. */
  lemma Filled(size: nat, page: pagesize)
    ensures PagesFor(size + Free(size, page), page) == PagesFor(size, page) + 1
    ensures PagesFor(size + Free(size, page) + 1, page) == PagesFor(size, page) + 2
  {
    var q, r := size / page, size % page;
    assert size == q * page + r;
    MulSucc(q, page);
    MulSucc(q + 1, page);
    if r == 0 {
      DivOf(q, page, page - 1);
      PagesForIs(q, page, size + page);
      PagesForIs(q + 1, page, size + page + 1);
    } else {
      PagesForIs(q, page, size);
      PagesForIs(q + 1, page, size + Free(size, page));
      PagesForIs(q + 2, page, size + Free(size, page) + 1);
    }
  }

  lemma PagesForMonotone(a: nat, b: nat, page: pagesize)
    requires a <= b
    ensures PagesFor(a, page) <= PagesFor(b, page)
  {
    var x, y := a + page - 1, b + page - 1;
    var p, q := x / page, y / page;
    assert x == p * page + x % page && y == q * page + y % page;
    assert (p - q) * page <= y % page;
    if p > q { AtLeast(p - q, page); }
  }

  // ---- whole programs ----

  /** The spliced `if`s are short: one at hand takes `limit` bytes at most behind its
      condition, one inside a branch or a loop body 512. */
  ghost predicate ShortIfs(g: Globals, sc: Scope, s: Stmt, limit: nat)
    requires g.Ok() && sc.off <= |sc.vars| && StmtCode(g, sc, s).SCode?
    decreases s
  {
    match s
    case If(e, t, f) =>
      var sc1 := Pushed(sc, ExprCode(sc.vars, e), e);
      var sct := Child(sc1, sc1.ssize);
      var ct := BlockCode(g, sct, t);
      var scf := Child(Back(sc1, ct.sc), sc1.ssize);
      var cf := BlockCode(g, scf, f);
      && ShortIfsBlock(g, sct, t, 512) && ShortIfsBlock(g, scf, f, 512)
      && 3 + |ct.code| + 3 + |cf.code| <= limit
    case While(e, body) =>
      ShortIfsBlock(g, Child(Pushed(sc, ExprCode(sc.vars, e), e), 0), body, 512)
    case _ => true
  }

  ghost predicate ShortIfsBlock(g: Globals, sc: Scope, b: Block, limit: nat)
    requires g.Ok() && sc.off <= |sc.vars| && BlockCode(g, sc, b).SCode?
    decreases b
  {
    b.Then? ==>
      && ShortIfs(g, sc, b.head, limit)
      && ShortIfsBlock(g, StmtCode(g, sc, b.head).sc, b.tail, limit)
  }

  /** Pages that hold `limit` bytes and any loop. */
  ghost predicate Holding(page: Option<pagesize>, limit: nat) {
    page.Some? ==> 256 <= page.value && limit <= page.value
  }

  lemma TailSize(g: Globals, t: seq<byte>, f: seq<byte>)
    requires g.Ok() && |t| + 3 < 0x1_0000 && |f| < 0x1_0000
    ensures |IfTail(g, t, f)| == 3 + |t| + 3 + |f|
  {
  }

  lemma LoopSize(g: Globals, c: seq<byte>, b: seq<byte>)
    requires g.Ok()
    ensures |c + WhileTail(g, c, b)| == |c| + 3 + |b| + 3
  {
  }

  lemma {:induction false} ShortFits(g: Globals, sc: Scope, s: Stmt, limit: nat, page: Option<pagesize>, size: nat)
    requires g.Ok() && g.reach == 0x100 && sc.off <= |sc.vars| && StmtCode(g, sc, s).SCode? && Fits(g, sc, s)
    requires ShortIfs(g, sc, s, limit) && Holding(page, limit)
    ensures PagesFit(g, sc, s, page, size)
    decreases s
  {
    hide ExprCode, BlockCode, FitsBlock, ShortIfsBlock, PagesFitBlock, IfTail, WhileTail, Pushed, Free;
    match s
    case If(e, t, f) =>
      var sc1 := Pushed(sc, ExprCode(sc.vars, e), e);
      var ct := BlockCode(g, Child(sc1, sc1.ssize), t);
      var cf := BlockCode(g, Child(Back(sc1, ct.sc), sc1.ssize), f);
      ShortFitsBlock(g, Child(sc1, sc1.ssize), t, 512, Some(512), 0);
      ShortFitsBlock(g, Child(Back(sc1, ct.sc), sc1.ssize), f, 512, Some(512), 0);
      TailSize(g, ct.code, cf.code);
    case While(e, body) =>
      var sc1 := Pushed(sc, ExprCode(sc.vars, e), e);
      ShortFitsBlock(g, Child(sc1, 0), body, 512, Some(512), 0);
      LoopSize(g, CodeOf(ExprCode(sc.vars, e)), BlockCode(g, Child(sc1, 0), body).code);
    case _ =>
  }

  /** Code that fits its jumps and has short `if`s overruns no page. */
  lemma {:induction false} ShortFitsBlock(g: Globals, sc: Scope, b: Block, limit: nat, page: Option<pagesize>,
                                          size: nat)
    requires g.Ok() && g.reach == 0x100 && sc.off <= |sc.vars| && BlockCode(g, sc, b).SCode? && FitsBlock(g, sc, b)
    requires ShortIfsBlock(g, sc, b, limit) && Holding(page, limit)
    ensures PagesFitBlock(g, sc, b, page, size)
    decreases b
  {
    hide StmtCode, Fits, ShortIfs, PagesFit, Holding;
    if b.Then? {
      var r := StmtCode(g, sc, b.head);
      ShortFits(g, sc, b.head, limit, page, size);
      ShortFitsBlock(g, r.sc, b.tail, limit, page, size + |r.code|);
    }
  }

  /** `if`s are short where the whole code is. */
  lemma {:induction false} SmallIsShort(g: Globals, sc: Scope, s: Stmt, limit: nat)
    requires g.Ok() && sc.off <= |sc.vars| && StmtCode(g, sc, s).SCode? && Fits(g, sc, s)
    requires |StmtCode(g, sc, s).code| <= limit <= 512
    ensures ShortIfs(g, sc, s, limit)
    decreases s
  {
    hide ExprCode, BlockCode, FitsBlock, ShortIfsBlock, IfTail, WhileTail, Pushed;
    match s
    case If(e, t, f) =>
      var sc1 := Pushed(sc, ExprCode(sc.vars, e), e);
      var ct := BlockCode(g, Child(sc1, sc1.ssize), t);
      var cf := BlockCode(g, Child(Back(sc1, ct.sc), sc1.ssize), f);
      TailSize(g, ct.code, cf.code);
      SmallIsShortBlock(g, Child(sc1, sc1.ssize), t, 512);
      SmallIsShortBlock(g, Child(Back(sc1, ct.sc), sc1.ssize), f, 512);
    case While(e, body) =>
      var sc1 := Pushed(sc, ExprCode(sc.vars, e), e);
      LoopSize(g, CodeOf(ExprCode(sc.vars, e)), BlockCode(g, Child(sc1, 0), body).code);
      SmallIsShortBlock(g, Child(sc1, 0), body, 512);
    case _ =>
  }

  lemma {:induction false} SmallIsShortBlock(g: Globals, sc: Scope, b: Block, limit: nat)
    requires g.Ok() && sc.off <= |sc.vars| && BlockCode(g, sc, b).SCode? && FitsBlock(g, sc, b)
    requires |BlockCode(g, sc, b).code| <= limit <= 512
    ensures ShortIfsBlock(g, sc, b, limit)
    decreases b
  {
    hide StmtCode, Fits, ShortIfs;
    if b.Then? {
      var r := StmtCode(g, sc, b.head);
      SmallIsShort(g, sc, b.head, limit);
      SmallIsShortBlock(g, r.sc, b.tail, limit);
    }
  }

  /** When a declaration is compiled and registered: told by its parameters, by names and types,
      by the sizes of its loop bodies and by the pages. */
  lemma DefinedExactly(g: Globals, decl: FuncDecl, status: Status, f: Option<Func>)
    requires g.Ok() && FuncCompiler.Answers(g, decl, status, f)
    ensures var sc := Scope(ParamVars(decl.params), 0, 128, 0, |decl.params|, 0);
            status == Success && f.Some? <==>
              && (forall p :: p in decl.params ==> p.ty != Unknown) && |decl.params| <= 128
              && AcceptedBlock(g, ParamVars(decl.params), 0, 128, decl.body)
              && LoopsShortBlock(g, sc, decl.body) && PagesFitBlock(g, sc, decl.body, Some(256), 0)
  {
    hide BlockCode, FitsBlock, PagesFitBlock, AcceptedBlock, LoopsShortBlock, Compiled;
    BlockAccepted(g, FuncScope(decl.params), decl.body);
    NoVoid(decl);
  }

  lemma NoVoid(decl: FuncDecl)
    ensures Unknown !in ParamTypes(decl) <==> forall p :: p in decl.params ==> p.ty != Unknown
  {
    forall p | p in decl.params ensures p.ty in ParamTypes(decl) {
      var i :| 0 <= i < |decl.params| && decl.params[i] == p;
      assert ParamTypes(decl)[i] == p.ty;
    }
  }

  /** A declaration without void parameters, with 128 of them at most, that compiles to code
      that fits its jumps and has short `if`s, is compiled and registered. */
  lemma ShortIsDefined(g: Globals, decl: FuncDecl, status: Status, f: Option<Func>)
    requires g.Ok() && g.reach == 0x100 && FuncCompiler.Answers(g, decl, status, f)
    requires Unknown !in ParamTypes(decl) && |decl.params| <= 128
    requires var sc := FuncScope(decl.params);
             BlockCode(g, sc, decl.body).SCode? && FitsBlock(g, sc, decl.body) && ShortIfsBlock(g, sc, decl.body, 256)
    ensures status == Success && f.Some? && f.value.body == BlockCode(g, FuncScope(decl.params), decl.body).code
  {
    hide BlockCode, FitsBlock, ShortIfsBlock, PagesFitBlock, Compiled;
    ShortFitsBlock(g, FuncScope(decl.params), decl.body, 256, Some(256), 0);
  }

  /** In particular where the whole code is 256 bytes at most. */
  lemma SmallIsDefined(g: Globals, decl: FuncDecl, status: Status, f: Option<Func>)
    requires g.Ok() && g.reach == 0x100 && FuncCompiler.Answers(g, decl, status, f)
    requires Unknown !in ParamTypes(decl) && |decl.params| <= 128
    requires var r := BlockCode(g, FuncScope(decl.params), decl.body);
             r.SCode? && |r.code| <= 256 && FitsBlock(g, FuncScope(decl.params), decl.body)
    ensures status == Success && f.Some?
  {
    hide BlockCode, FitsBlock, ShortIfsBlock, FuncCompiler.Answers;
    SmallIsShortBlock(g, FuncScope(decl.params), decl.body, 256);
    ShortIsDefined(g, decl, status, f);
  }

  /** Statements entered interactively are executed as they come; only inside branches and
      loop bodies is there a limit. */
  lemma ShortIsEntered(g: Globals, sc: Scope, b: Block, limit: nat)
    requires g.Ok() && g.reach == 0x100 && sc.off <= |sc.vars| && BlockCode(g, sc, b).SCode? && FitsBlock(g, sc, b)
    requires ShortIfsBlock(g, sc, b, limit)
    ensures Shell.Compilable(g, sc, b)
  {
    hide BlockCode, FitsBlock, ShortIfsBlock, PagesFitBlock;
    ShortFitsBlock(g, sc, b, limit, None, 0);
  }

  /** An `if` of two pages or more behind its condition is refused: of 512 bytes in a
      function, of 1024 in a branch or a loop body. */
  lemma LongIfRefused(g: Globals, sc: Scope, s: Stmt, size: nat)
    requires g.Ok() && sc.off <= |sc.vars| && s.If? && StmtCode(g, sc, s).SCode? && Fits(g, sc, s)
    ensures var sc1 := Pushed(sc, ExprCode(sc.vars, s.cond), s.cond);
            var ct := BlockCode(g, Child(sc1, sc1.ssize), s.thn);
            var cf := BlockCode(g, Child(Back(sc1, ct.sc), sc1.ssize), s.els);
            var n := 3 + |ct.code| + 3 + |cf.code|;
            && (n >= 512 ==> !PagesFit(g, sc, s, Some(256), size))
            && (n >= 1024 ==> !PagesFit(g, sc, s, Some(512), size))
  {
    hide ExprCode, BlockCode, FitsBlock, PagesFitBlock, IfTail, Pushed, Free;
    var sc1 := Pushed(sc, ExprCode(sc.vars, s.cond), s.cond);
    var ct := BlockCode(g, Child(sc1, sc1.ssize), s.thn);
    var cf := BlockCode(g, Child(Back(sc1, ct.sc), sc1.ssize), s.els);
    TailSize(g, ct.code, cf.code);
  }
}
