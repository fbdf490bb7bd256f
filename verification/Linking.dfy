/** From declarations to the machine's function table: names, constants, indices. */
module Linking {
  import opened Words
  import opened Ast
  import opened Language
  import opened Bytecode
  import opened Machine
  import opened Codegen
  import opened StmtCorrect
  import opened ControlFlow

  // ---- code depends on the functions it calls, and on nothing else of the table ----

  predicate Calls(s: Stmt, f: string) {
    match s
    case Call(h, _) => h == f
    case If(_, t, e) => CallsBlock(t, f) || CallsBlock(e, f)
    case While(_, body) => CallsBlock(body, f)
    case _ => false
  }

  predicate CallsBlock(b: Block, f: string) {
    match b
    case End => false
    case Then(s, rest) => Calls(s, f) || CallsBlock(rest, f)
  }

  /** `g2` knows everything `g1` does, except perhaps about `others`. */
  ghost predicate Extends(g1: Globals, g2: Globals, others: set<string>) {
    && g1.Ok() && g2.Ok() && g1.reach == g2.reach
    && forall f :: f in g1.fns && f !in others ==> f in g2.fns && g2.fns[f] == g1.fns[f]
  }

  lemma {:induction false} StmtStable(g1: Globals, g2: Globals, sc: Scope, s: Stmt, others: set<string>)
    requires Extends(g1, g2, others) && sc.off <= |sc.vars| && StmtCode(g1, sc, s).SCode?
    requires forall f :: f in others ==> !Calls(s, f)
    ensures StmtCode(g2, sc, s) == StmtCode(g1, sc, s)
    ensures Fits(g1, sc, s) ==> Fits(g2, sc, s)
    decreases s
  {
    hide ExprCode, AssignCode, ArgsCode, Encode, Depth, ArgsFit;
    match s
    case If(e, t, els) =>
      var sc1 := Pushed(sc, ExprCode(sc.vars, e), e);
      var ct := BlockCode(g1, Child(sc1, sc1.ssize), t);
      hide BlockCode, FitsBlock;
      BlockStable(g1, g2, Child(sc1, sc1.ssize), t, others);
      var sc2 := Back(sc1, ct.sc);
      BlockStable(g1, g2, Child(sc2, sc2.ssize), els, others);
    case While(e, body) =>
      hide BlockCode, FitsBlock;
      BlockStable(g1, g2, Child(Pushed(sc, ExprCode(sc.vars, e), e), 0), body, others);
    case _ =>
  }

  lemma {:induction false} BlockStable(g1: Globals, g2: Globals, sc: Scope, b: Block, others: set<string>)
    requires Extends(g1, g2, others) && sc.off <= |sc.vars| && BlockCode(g1, sc, b).SCode?
    requires forall f :: f in others ==> !CallsBlock(b, f)
    ensures BlockCode(g2, sc, b) == BlockCode(g1, sc, b)
    ensures FitsBlock(g1, sc, b) ==> FitsBlock(g2, sc, b)
    decreases b
  {
    hide StmtCode, Fits;
    if b.Then? {
      StmtStable(g1, g2, sc, b.head, others);
      BlockStable(g1, g2, StmtCode(g1, sc, b.head).sc, b.tail, others);
    }
  }

  lemma CompiledStable(g1: Globals, g2: Globals, decl: FuncDecl, func: Func, others: set<string>)
    requires Extends(g1, g2, others) && Compiled(g1, decl, func)
    requires forall f :: f in others ==> !CallsBlock(decl.body, f)
    ensures Compiled(g2, decl, func)
  {
    hide BlockCode, FitsBlock;
    BlockStable(g1, g2, FuncScope(decl.params), decl.body, others);
  }

  // ---- the constant pool ----

  /** Where each constant was written, and what is written where. `moves` says whether the
      write position advances behind a new constant: in the code as it stands it does not. */
  datatype Pool = Pool(offsets: seq<nat>, text: map<nat, string>, size: nat, moves: bool)

  function AddConstant(pool: Pool, c: string): Pool {
    pool.(offsets := pool.offsets + [pool.size], text := pool.text[pool.size := c],
          size := if pool.moves then pool.size + 2 + |c| + 1 else pool.size)
  }

  /** The constant a call's operand is looked up to. */
  function Resolve(pool: Pool, k: nat): Option<string> {
    if k < |pool.offsets| && pool.offsets[k] in pool.text then Some(pool.text[pool.offsets[k]]) else None
  }

  ghost predicate Wrote(pool: Pool, consts: seq<string>) {
    && |pool.offsets| == |consts|
    && (forall i :: 0 <= i < |consts| ==> pool.offsets[i] in pool.text)
    && if pool.moves then
         && (forall i :: 0 <= i < |consts| ==> pool.offsets[i] < pool.size && pool.text[pool.offsets[i]] == consts[i])
       else
         && (forall i :: 0 <= i < |consts| ==> pool.offsets[i] == pool.size)
         && (consts != [] ==> pool.size in pool.text && pool.text[pool.size] == consts[|consts| - 1])
  }

  lemma AddWrites(pool: Pool, consts: seq<string>, c: string)
    requires Wrote(pool, consts)
    ensures Wrote(AddConstant(pool, c), consts + [c])
  {
  }

  /** With an advancing position every index gives its own constant back. Without, every
      index gives the newest one. */
  lemma ResolveExact(pool: Pool, consts: seq<string>, k: nat)
    requires Wrote(pool, consts) && k < |consts|
    ensures Resolve(pool, k) == Some(if pool.moves then consts[k] else consts[|consts| - 1])
  {
  }

  // ---- the registry ----

  /** A declared function: its tree and its signature string. */
  datatype Desc = Desc(decl: FuncDecl, signature: string)

  /** Declared names, the compiler's constant indices, the machine's constants and its
      functions by signature; `order` and `consts` list the names and signatures as they
      were registered. */
  datatype Registry = Registry(descs: map<string, Desc>, indices: map<string, nat>, pool: Pool,
                               handles: map<string, Func>, order: seq<string>, consts: seq<string>)

  /** The index a call is compiled with: 0 as long as there is none. */
  function IndexOf(r: Registry, signature: string): nat {
    if signature in r.indices then r.indices[signature] else 0
  }

  function GlobalsOf(r: Registry, reach: nat): Globals {
    Globals(map f | f in r.descs :: Signature(IndexOf(r, r.descs[f].signature), ParamTypes(r.descs[f].decl)), reach)
  }

  /** While a body is compiled its name is known, its index is not. */
  function Begun(r: Registry, name: string, desc: Desc): Registry {
    r.(descs := r.descs[name := desc])
  }

  function Declared(r: Registry, name: string, desc: Desc, func: Func): Registry {
    r.(descs := r.descs[name := desc], indices := r.indices[desc.signature := |r.order| % 0x1_0000],
       pool := AddConstant(r.pool, desc.signature), handles := r.handles[desc.signature := func],
       order := r.order + [name], consts := r.consts + [desc.signature])
  }

  /** A signature begins with the name and a parenthesis. */
  ghost predicate Signs(f: string, signature: string) {
    '(' !in f && |f| < |signature| && signature[..|f|] == f && signature[|f|] == '('
  }

  lemma NameEnds(f: string, signature: string)
    requires Signs(f, signature)
    ensures forall k :: 0 <= k < |f| ==> signature[k] != '('
  {
    assert forall k :: 0 <= k < |f| ==> signature[k] == f[k];
  }

  lemma SignsOnce(f: string, h: string, signature: string)
    requires Signs(f, signature) && Signs(h, signature)
    ensures f == h
  {
    NameEnds(f, signature);
    NameEnds(h, signature);
  }

  ghost predicate Consistent(r: Registry) {
    |r.order| == |r.consts| <= 0x1_0000 && Wrote(r.pool, r.consts) && Listed(r) && Found(r) && Indexed(r)
  }

  /** The names in order are declared with the signatures in order. */
  ghost predicate Listed(r: Registry) {
    |r.order| == |r.consts| &&
    forall i :: 0 <= i < |r.order| ==>
      && r.order[i] in r.descs && r.descs[r.order[i]].signature == r.consts[i]
      && Signs(r.order[i], r.consts[i]) && r.consts[i] in r.indices && r.indices[r.consts[i]] == i
  }

  /** Every declared name has its index and its code. */
  ghost predicate Found(r: Registry) {
    forall f :: f in r.descs ==>
      && r.descs[f].signature in r.indices && r.descs[f].signature in r.handles
      && (var k := r.indices[r.descs[f].signature]; k < |r.order| && r.order[k] == f)
  }

  /** An index is the position of its signature. */
  ghost predicate Indexed(r: Registry) {
    forall c :: c in r.indices ==> r.indices[c] < |r.consts| && r.consts[r.indices[c]] == c
  }

  /** Every declared function is registered as the compilation of its declaration. */
  ghost predicate AllCompiled(r: Registry, reach: nat) {
    && GlobalsOf(r, reach).Ok()
    && forall f :: f in r.descs ==>
         r.descs[f].signature in r.handles
             && Compiled(GlobalsOf(r, reach), r.descs[f].decl, r.handles[r.descs[f].signature])
  }

  lemma NewSignature(r: Registry, name: string, signature: string)
    requires Consistent(r) && name !in r.descs && Signs(name, signature)
    ensures signature !in r.indices && forall f :: f in r.descs ==> r.descs[f].signature != signature
  {
    hide Signs, Wrote;
    if signature in r.indices {
      SignsOnce(r.order[r.indices[signature]], name, signature);
    }
  }

  lemma DeclaredListed(r: Registry, name: string, desc: Desc, func: Func)
    requires Listed(r) && name !in r.descs && desc.signature !in r.indices && Signs(name, desc.signature)
    requires |r.order| < 0x1_0000
    ensures Listed(Declared(r, name, desc, func))
  {
    hide AddConstant, Signs;
  }

  lemma DeclaredFound(r: Registry, name: string, desc: Desc, func: Func)
    requires Found(r) && desc.signature !in r.indices && |r.order| < 0x1_0000
    ensures Found(Declared(r, name, desc, func))
  {
    hide AddConstant;
  }

  lemma DeclaredIndexed(r: Registry, name: string, desc: Desc, func: Func)
    requires Indexed(r) && |r.order| == |r.consts| < 0x1_0000
    ensures Indexed(Declared(r, name, desc, func))
  {
    hide AddConstant;
  }

  lemma DeclaredSound(r: Registry, name: string, desc: Desc, func: Func)
    requires Consistent(r) && name !in r.descs && Signs(name, desc.signature) && |r.order| < 0x1_0000
    ensures Consistent(Declared(r, name, desc, func))
  {
    NewSignature(r, name, desc.signature);
    AddWrites(r.pool, r.consts, desc.signature);
    DeclaredListed(r, name, desc, func);
    DeclaredFound(r, name, desc, func);
    DeclaredIndexed(r, name, desc, func);
    hide Wrote, AddConstant, Signs, Listed, Found, Indexed;
  }

  lemma GlobalsOk(r: Registry, reach: nat)
    requires Consistent(r) && (reach == 0x100 || reach == 0x1_0000)
    ensures GlobalsOf(r, reach).Ok()
  {
    hide Signs, Wrote;
  }

  lemma BegunGrows(r: Registry, name: string, desc: Desc, reach: nat)
    requires name !in r.descs && desc.signature !in r.indices
    ensures var g := GlobalsOf(r, reach);
            GlobalsOf(Begun(r, name, desc), reach) == g.(fns := g.fns[name := Signature(0, ParamTypes(desc.decl))])
  {
    hide ParamTypes;
  }

  lemma DeclaredGrows(r: Registry, name: string, desc: Desc, func: Func, reach: nat)
    requires name !in r.descs && forall f :: f in r.descs ==> r.descs[f].signature != desc.signature
    ensures var (g, g') := (GlobalsOf(r, reach), GlobalsOf(Declared(r, name, desc, func), reach));
            g' == g.(fns := g.fns[name := Signature(|r.order| % 0x1_0000, ParamTypes(desc.decl))])
  {
    hide ParamTypes, AddConstant;
    var r' := Declared(r, name, desc, func);
    assert forall f :: f in r.descs ==> IndexOf(r', r.descs[f].signature) == IndexOf(r, r.descs[f].signature);
    assert IndexOf(r', desc.signature) == |r.order| % 0x1_0000;
    hide IndexOf;
  }

  /** What a new declaration does to the compiler's view of the functions. */
  lemma GlobalsGrow(r: Registry, name: string, desc: Desc, func: Func, reach: nat)
    requires Consistent(r) && name !in r.descs && Signs(name, desc.signature)
    ensures var (g, g1) := (GlobalsOf(r, reach), GlobalsOf(Begun(r, name, desc), reach));
            var g' := GlobalsOf(Declared(r, name, desc, func), reach);
            && g1 == g.(fns := g.fns[name := Signature(0, ParamTypes(desc.decl))])
            && g' == g.(fns := g.fns[name := Signature(|r.order| % 0x1_0000, ParamTypes(desc.decl))])
            && name !in g.fns
  {
    assert name !in GlobalsOf(r, reach).fns;
    hide *;
    NewSignature(r, name, desc.signature);
    BegunGrows(r, name, desc, reach);
    DeclaredGrows(r, name, desc, func, reach);
  }

  /** Declaring one more function keeps all functions compiled - unless it calls itself
      and is not the first: its own index is not known before its body is compiled, so
      such calls go to index 0. */
  lemma DeclareKeeps(r: Registry, reach: nat, name: string, desc: Desc, func: Func)
    requires Consistent(r) && AllCompiled(r, reach) && |r.order| < 0x1_0000
    requires name !in r.descs && Signs(name, desc.signature)
    requires GlobalsOf(Begun(r, name, desc), reach).Ok()
    requires Compiled(GlobalsOf(Begun(r, name, desc), reach), desc.decl, func)
    requires r.order == [] || !CallsBlock(desc.decl.body, name)
    ensures Consistent(Declared(r, name, desc, func)) && AllCompiled(Declared(r, name, desc, func), reach)
  {
    hide *;
    var r' := Declared(r, name, desc, func);
    var (g, g1, g') := (GlobalsOf(r, reach), GlobalsOf(Begun(r, name, desc), reach), GlobalsOf(r', reach));
    DeclaredSound(r, name, desc, func);
    KeepSetup(r, reach, name, desc, func);
    if r.order != [] {
      CompiledStable(g1, g', desc.decl, func, {name});
    }
    forall f | f in r.descs
      ensures r.descs[f].signature in r.handles && Compiled(g', r.descs[f].decl, r.handles[r.descs[f].signature])
    {
      CompiledStable(g, g', r.descs[f].decl, r.handles[r.descs[f].signature], {});
    }
    NowCompiled(r, reach, name, desc, func);
  }

  lemma UpdateExtends(g: Globals, name: string, s1: Codegen.Signature, s2: Codegen.Signature)
    requires g.Ok() && name !in g.fns && s1.index < 0x1_0000 && s2.index < 0x1_0000
    ensures var (g1, g2) := (g.(fns := g.fns[name := s1]), g.(fns := g.fns[name := s2]));
            g1.Ok() && g2.Ok() && Extends(g, g2, {}) && Extends(g1, g2, {name})
  {
  }

  lemma KeepSetup(r: Registry, reach: nat, name: string, desc: Desc, func: Func)
    requires Consistent(r) && AllCompiled(r, reach) && |r.order| < 0x1_0000
    requires name !in r.descs && Signs(name, desc.signature)
    requires GlobalsOf(Begun(r, name, desc), reach).Ok()
    ensures var (g, g1) := (GlobalsOf(r, reach), GlobalsOf(Begun(r, name, desc), reach));
            var g' := GlobalsOf(Declared(r, name, desc, func), reach);
            && g'.Ok() && Extends(g, g', {}) && Extends(g1, g', {name}) && (r.order == [] ==> g1 == g')
    ensures GlobalsOf(r, reach).Ok() && forall f :: f in r.descs ==>
              && r.descs[f].signature in r.handles && r.descs[f].signature != desc.signature
              && Compiled(GlobalsOf(r, reach), r.descs[f].decl, r.handles[r.descs[f].signature])
  {
    GlobalsGrow(r, name, desc, func, reach);
    NewSignature(r, name, desc.signature);
    hide Consistent, Signs, Compiled, GlobalsOf, Extends;
    var types := ParamTypes(desc.decl);
    UpdateExtends(GlobalsOf(r, reach), name, Signature(0, types), Signature(|r.order| % 0x1_0000, types));
    assert r.order == [] ==> |r.order| % 0x1_0000 == 0;
  }

  lemma NowCompiled(r: Registry, reach: nat, name: string, desc: Desc, func: Func)
    requires name !in r.descs && GlobalsOf(Declared(r, name, desc, func), reach).Ok()
    requires Compiled(GlobalsOf(Declared(r, name, desc, func), reach), desc.decl, func)
    requires forall f :: f in r.descs ==>
               && r.descs[f].signature in r.handles && r.descs[f].signature != desc.signature
               && Compiled(GlobalsOf(Declared(r, name, desc, func), reach), r.descs[f].decl,
                           r.handles[r.descs[f].signature])
    ensures AllCompiled(Declared(r, name, desc, func), reach)
  {
    hide Compiled, GlobalsOf, AddConstant;
  }

  // ---- the machine's function table ----

  /** The functions that the operands of calls lead to. */
  function Table(r: Registry): map<nat, Func> {
    map k: nat | k < |r.pool.offsets| && Resolve(r.pool, k).Some? && Resolve(r.pool, k).value in r.handles
      :: r.handles[Resolve(r.pool, k).value]
  }

  ghost predicate Knows(r: Registry, f: string, decl: FuncDecl) { f in r.descs && r.descs[f].decl == decl }

  function Linked(r: Registry, m: Vm): Vm { m.(funcs := Table(r)) }

  function ProgramOf(r: Registry, m: Vm): Program { Program(m.fl, map f | f in r.descs :: r.descs[f].decl) }

  function Newest(r: Registry): Func
    requires Consistent(r) && r.order != []
  {
    r.handles[r.descs[r.order[|r.order| - 1]].signature]
  }

  /** The table has every index; it holds that index's function if the write position of
      the pool advances, and the newest function at every index if it does not. */
  lemma TableExact(r: Registry, k: nat)
    requires Consistent(r) && k < |r.order|
    ensures |r.pool.offsets| == |r.order| && k in Table(r)
    ensures r.order[k] in r.descs && r.descs[r.order[k]].signature in r.handles
    ensures Table(r)[k] == if r.pool.moves then r.handles[r.descs[r.order[k]].signature] else Newest(r)
  {
    ResolveExact(r.pool, r.consts, k);
    hide Resolve, Signs;
    assert r.order[|r.order| - 1] in r.descs;
  }

  lemma IndexExact(r: Registry, f: string, reach: nat)
    requires Consistent(r) && f in r.descs
    ensures var k := GlobalsOf(r, reach).fns[f].index;
            k < |r.order| && r.order[k] == f && GlobalsOf(r, reach).fns[f].params == ParamTypes(r.descs[f].decl)
  {
    hide Signs, Wrote;
  }

  /** Enough operand memory everywhere. */
  ghost predicate AllRoomy(r: Registry) {
    forall f :: f in r.descs && r.descs[f].signature in r.handles ==>
      Roomy(r.descs[f].decl, r.handles[r.descs[f].signature])
  }

  /** A table that leads every call to its own function makes a world in which all the
      theorems about programs hold: any table whose pool advances, and the table of
      a single function in any case. */
  lemma LinkedWorld(r: Registry, m: Vm, reach: nat, depth: nat)
    requires Consistent(r) && AllCompiled(r, reach) && (r.pool.moves || |r.order| <= 1)
    requires m.limit == depth + 1 && (m.checked ==> AllRoomy(r))
    ensures World(ProgramOf(r, m), Linked(r, m), GlobalsOf(r, reach), depth)
    ensures Covered(ProgramOf(r, m), Linked(r, m), GlobalsOf(r, reach))
  {
    hide Consistent, Compiled, Roomy, Table;
    forall f | f in r.descs
      ensures var k := GlobalsOf(r, reach).fns[f].index;
              && k in Table(r) && Table(r)[k] == r.handles[r.descs[f].signature]
              && GlobalsOf(r, reach).fns[f].params == ParamTypes(r.descs[f].decl)
    {
      IndexExact(r, f, reach);
      TableExact(r, GlobalsOf(r, reach).fns[f].index);
      NewestIsOnly(r, f);
    }
    TableCovered(r, m, reach);
    hide ParamTypes;
  }

  lemma NewestIsOnly(r: Registry, f: string)
    requires Consistent(r) && f in r.descs
    ensures r.order != [] && (|r.order| == 1 ==> Newest(r) == r.handles[r.descs[f].signature])
  {
    hide Signs, Wrote;
  }

  lemma TableCovered(r: Registry, m: Vm, reach: nat)
    requires Consistent(r)
    ensures Covered(ProgramOf(r, m), Linked(r, m), GlobalsOf(r, reach))
  {
    var g := GlobalsOf(r, reach);
    forall k | k in Table(r) ensures exists f :: f in r.descs && g.fns[f].index == k {
      TableExact(r, 0);
      IndexOfAt(r, k, reach);
    }
    hide Consistent, Table, Resolve;
  }

  lemma IndexOfAt(r: Registry, k: nat, reach: nat)
    requires Consistent(r) && k < |r.order|
    ensures r.order[k] in r.descs && GlobalsOf(r, reach).fns[r.order[k]].index == k
  {
    hide Wrote;
    IndexExact(r, r.order[k], reach);
  }

  /** As the code stands, with a pool that does not advance, the table makes a world
      exactly when all declarations compile to the newest function. */
  lemma StandingWorldExact(r: Registry, m: Vm, reach: nat, depth: nat)
    requires Consistent(r) && AllCompiled(r, reach) && !r.pool.moves && r.order != []
    requires m.limit == depth + 1 && !m.checked
    ensures World(ProgramOf(r, m), Linked(r, m), GlobalsOf(r, reach), depth)
       <==> forall f :: f in r.descs ==> Compiled(GlobalsOf(r, reach), r.descs[f].decl, Newest(r))
  {
    hide Consistent, Compiled, Roomy, Table, Newest;
    forall f | f in r.descs
      ensures var k := GlobalsOf(r, reach).fns[f].index;
              k in Table(r) && Table(r)[k] == Newest(r)
                  && GlobalsOf(r, reach).fns[f].params == ParamTypes(r.descs[f].decl)
    {
      IndexExact(r, f, reach);
      TableExact(r, GlobalsOf(r, reach).fns[f].index);
    }
    hide ParamTypes;
    var p, m', g := ProgramOf(r, m), Linked(r, m), GlobalsOf(r, reach);
    if World(p, m', g, depth) {
      forall f | f in r.descs ensures Compiled(g, r.descs[f].decl, Newest(r)) {
        assert f in p.funcs && Compiled(g, p.funcs[f], m'.funcs[g.fns[f].index]);
      }
    }
  }

  /** The newest function can be called in any case, if it calls no other one. */
  lemma NewestIsCallable(r: Registry, m: Vm, reach: nat, depth: nat, f: string)
    requires Consistent(r) && AllCompiled(r, reach) && r.order != [] && f == r.order[|r.order| - 1]
    requires m.limit == depth + 1 && (m.checked ==> AllRoomy(r))
    requires f in r.descs && forall h :: h in r.descs && h != f ==> !CallsBlock(r.descs[f].decl.body, h)
    ensures World(Program(m.fl, map[f := r.descs[f].decl]), Linked(r, m),
                  Globals(map[f := GlobalsOf(r, reach).fns[f]], reach), depth)
  {
    hide Consistent, Compiled, Roomy, Table, Newest;
    var g := GlobalsOf(r, reach);
    var g1 := Globals(map[f := g.fns[f]], reach);
    IndexExact(r, f, reach);
    LastIndex(r, reach, f);
    TableExact(r, g.fns[f].index);
    NewestIs(r, f);
    CompiledStable(g, g1, r.descs[f].decl, r.handles[r.descs[f].signature], r.descs.Keys - {f});
    hide ParamTypes;
  }

  lemma LastIndex(r: Registry, reach: nat, f: string)
    requires Consistent(r) && r.order != [] && f == r.order[|r.order| - 1]
    ensures f in r.descs && GlobalsOf(r, reach).fns[f].index == |r.order| - 1
  {
    IndexOfAt(r, |r.order| - 1, reach);
  }

  lemma NewestIs(r: Registry, f: string)
    requires Consistent(r) && r.order != [] && f == r.order[|r.order| - 1]
    ensures f in r.descs && r.descs[f].signature in r.handles && Newest(r) == r.handles[r.descs[f].signature]
  {
  }

  // ---- whole sessions ----

  datatype Declaration = Declaration(name: string, desc: Desc, func: Func)

  /** The tables after a series of declarations. */
  function After(steps: seq<Declaration>, moves: bool): Registry {
    if steps == [] then Registry(map[], map[], Pool([], map[], 0, moves), map[], [], [])
    else
      var last := steps[|steps| - 1];
      Declared(After(steps[..|steps| - 1], moves), last.name, last.desc, last.func)
  }

  /** A declaration of a new name, compiled with what is known then, which does not call
      itself unless it is the first. */
  ghost predicate Proper(r: Registry, step: Declaration, reach: nat) {
    && step.name !in r.descs && Signs(step.name, step.desc.signature)
    && GlobalsOf(Begun(r, step.name, step.desc), reach).Ok()
    && Compiled(GlobalsOf(Begun(r, step.name, step.desc), reach), step.desc.decl, step.func)
    && (r.order == [] || !CallsBlock(step.desc.decl.body, step.name))
  }

  ghost predicate AllProper(steps: seq<Declaration>, moves: bool, reach: nat) {
    forall i :: 0 <= i < |steps| ==> Proper(After(steps[..i], moves), steps[i], reach)
  }

  lemma EmptyCompiled(moves: bool, reach: nat)
    requires reach == 0x100 || reach == 0x1_0000
    ensures var r := After([], moves);
            Consistent(r) && AllCompiled(r, reach) && |r.order| == 0 && r.pool.moves == moves
  {
  }

  lemma StepCompiled(r: Registry, step: Declaration, reach: nat)
    requires Consistent(r) && AllCompiled(r, reach) && |r.order| < 0x1_0000 && Proper(r, step, reach)
    ensures var r' := Declared(r, step.name, step.desc, step.func);
            Consistent(r') && AllCompiled(r', reach) && |r'.order| == |r.order| + 1 && r'.pool.moves == r.pool.moves
  {
    hide Consistent, AllCompiled, GlobalsOf, Signs, Compiled;
    DeclareKeeps(r, reach, step.name, step.desc, step.func);
  }

  lemma ProperPrefix(steps: seq<Declaration>, n: nat, moves: bool, reach: nat)
    requires n <= |steps| && AllProper(steps, moves, reach)
    ensures AllProper(steps[..n], moves, reach)
  {
    hide Proper, After;
    forall i | 0 <= i < n ensures Proper(After(steps[..n][..i], moves), steps[..n][i], reach) {
      assert steps[..n][..i] == steps[..i];
    }
  }

  lemma AfterLast(steps: seq<Declaration>, moves: bool, reach: nat)
    requires steps != [] && AllProper(steps, moves, reach)
    ensures var n := |steps| - 1;
            && AllProper(steps[..n], moves, reach) && Proper(After(steps[..n], moves), steps[n], reach)
            && After(steps, moves)
            == Declared(After(steps[..n], moves), steps[n].name, steps[n].desc, steps[n].func)
  {
    ProperPrefix(steps, |steps| - 1, moves, reach);
    assert Proper(After(steps[..|steps| - 1], moves), steps[|steps| - 1], reach);
    hide Proper, Declared, AllProper;
  }

  lemma {:induction false} SessionCompiled(steps: seq<Declaration>, moves: bool, reach: nat)
    requires |steps| <= 0x1_0000 && (reach == 0x100 || reach == 0x1_0000) && AllProper(steps, moves, reach)
    ensures var r := After(steps, moves);
            Consistent(r) && AllCompiled(r, reach) && |r.order| == |steps| && r.pool.moves == moves
    decreases |steps|
  {
    hide *;
    if steps == [] {
      EmptyCompiled(moves, reach);
    } else {
      var n := |steps| - 1;
      AfterLast(steps, moves, reach);
      SessionCompiled(steps[..n], moves, reach);
      StepCompiled(After(steps[..n], moves), steps[n], reach);
    }
  }

  /** Any series of declarations builds a world in which every call runs the function it
      names - with a pool that advances; with the pool as it stands, one declaration does. */
  lemma SessionWorld(steps: seq<Declaration>, moves: bool, m: Vm, reach: nat, depth: nat)
    requires |steps| <= 0x1_0000 && (reach == 0x100 || reach == 0x1_0000) && AllProper(steps, moves, reach)
    requires (moves || |steps| <= 1) && m.limit == depth + 1 && (m.checked ==> AllRoomy(After(steps, moves)))
    ensures var r := After(steps, moves);
            && World(ProgramOf(r, m), Linked(r, m), GlobalsOf(r, reach), depth)
            && Covered(ProgramOf(r, m), Linked(r, m), GlobalsOf(r, reach))
  {
    hide *;
    SessionCompiled(steps, moves, reach);
    LinkedWorld(After(steps, moves), m, reach, depth);
  }
}
