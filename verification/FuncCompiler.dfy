/** Compiling and registering a function: its scope, its parameters, the header in
    front of its code, and what the virtual machine reads back. */
module FuncCompiler {
  import opened Words
  import opened Ast
  import opened Bytecode
  import opened Machine
  import opened Codegen
  import opened ExprCorrect
  import opened StmtCorrect
  import opened Emitter
  import opened Scopes
  import opened ExprCompiler
  import opened StmtCompiler

  const FUNC_PAGE: pagesize := 256

  /** Two big-endian words, then the code. */
  function Header(nvars: nat, nstack: nat): (h: seq<byte>)
    ensures |h| == 4
  {
    Be16(nvars % 0x1_0000) + Be16(nstack % 0x1_0000)
  }

  lemma ParamSnoc(params: seq<Param>, i: nat)
    requires i < |params|
    ensures ParamVars(params[..i + 1]) == ParamVars(params[..i]) + [Var(params[i].name, params[i].ty)]
  {
  }

  function ParamScope(params: seq<Param>, i: nat): Scope
    requires i <= |params|
  {
    Scope(ParamVars(params[..i]), 0, 0x80, 0, i, 0)
  }

  lemma NextParam(params: seq<Param>, i: nat)
    requires i < |params|
    ensures ParamScope(params, i).off <= |ParamScope(params, i).vars|
    ensures Define(ParamScope(params, i), params[i].name, params[i].ty)
         == if i >= 0x80 then None else Some(ParamScope(params, i + 1))
    ensures Lookup([], params[i].name).None?
  {
    ParamSnoc(params, i);
  }

  /** The scope a body is compiled in holds its parameters. */
  ghost predicate Bound(scope: ScopeHandler, params: seq<Param>, i: nat)
    requires i <= |params|
    reads scope, scope.max
  {
    scope.Abs() == ParamScope(params, i) && scope.outer == []
  }

  /** Defines one variable per parameter; there is room for 128. */
  method BindParameters(scope: ScopeHandler, params: seq<Param>) returns (status: Status)
    requires scope.Ready() && Bound(scope, params, 0)
    modifies scope`vars, scope.max`vars
    ensures scope.Ready()
    ensures status == if |params| <= 0x80 then Success else Panicked
    ensures status == Success ==> Bound(scope, params, |params|)
  {
    hide *;
    BindSetup(scope, params);
    for i := 0 to |params|
      invariant scope.Valid() && scope.emitter.Backed(scope.memory) && i <= 0x80
      invariant scope.Abs() == ParamScope(params, i)
    {
      NextParam(params, i);
      var found := scope.DefineVar(params[i].ty, params[i].name);
      if found.None? {
        BindDone(scope, params, i);
        return Panicked;
      }
    }
    BindDone(scope, params, |params|);
    status := Success;
  }

  lemma BindSetup(scope: ScopeHandler, params: seq<Param>)
    requires scope.Ready() && Bound(scope, params, 0)
    ensures scope.Valid() && scope.emitter.Backed(scope.memory) && scope.emitter.Self() in scope.memory
    ensures scope !in scope.memory && scope.max !in scope.memory
    ensures scope.outer == [] && scope.Abs() == ParamScope(params, 0)
  {
    scope.Apart();
  }

  lemma BindDone(scope: ScopeHandler, params: seq<Param>, i: nat)
    requires scope.Valid() && scope.emitter.Backed(scope.memory) && i <= |params|
    requires scope.outer == [] && scope.Abs() == ParamScope(params, i)
    ensures scope.Ready() && Bound(scope, params, i)
  {
    hide ScopeHandler.Valid, Output.Backed;
  }

  ghost predicate FuncDone(g: Globals, decl: FuncDecl, status: Status, data: seq<byte>)
    requires g.Ok()
  {
    if |decl.params| > 0x80 then status == Panicked
    else if !PagesFitBlock(g, FuncScope(decl.params), decl.body, Some(FUNC_PAGE), 0) then status == Overrun
    else
      match BlockCode(g, FuncScope(decl.params), decl.body)
      case SPanic => status == Panicked
      case SCode(code, sc) => status == Success && data == Header(sc.vmax, sc.smax) + code
  }

  lemma FuncStops(g: Globals, decl: FuncDecl, status: Status, after: Scope, log: seq<seq<byte>>)
    requires g.Ok()
    requires |decl.params| > 0x80 ==> status == Panicked
    requires |decl.params| <= 0x80 ==>
               BlockDone(g, decl.body, Some(FUNC_PAGE), status, FuncScope(decl.params), after, [], log)
    requires status == Panicked || status == Overrun
    ensures FuncDone(g, decl, status, [])
  {
    hide BlockCode, PagesFitBlock;
  }

  lemma FuncFinishes(g: Globals, decl: FuncDecl, status: Status, after: Scope, log: seq<seq<byte>>)
    requires g.Ok() && |decl.params| <= 0x80 && status != Panicked && status != Overrun
    requires BlockDone(g, decl.body, Some(FUNC_PAGE), status, FuncScope(decl.params), after, [], log)
    ensures FuncDone(g, decl, Success, Header(after.vmax, after.smax) + Flat(log))
  {
    BlockMeans(g, decl.body, Some(FUNC_PAGE), status, FuncScope(decl.params), after, log);
    hide BlockCode, PagesFitBlock;
  }

  lemma FuncSetup(decl: FuncDecl)
    requires forall i :: 0 <= i < |decl.params| ==> decl.params[i].ty != Unknown
    ensures Typed(ParamVars(decl.params))
    ensures FuncScope(decl.params) == Scope(ParamVars(decl.params), 0, 0x80, 0, |decl.params|, 0)
    ensures decl.params[..|decl.params|] == decl.params && ParamVars(decl.params[..0]) == []
  {
  }

  /** The bytes that are handed to the virtual machine. */
  method CompileFunc(g: Globals, decl: FuncDecl) returns (status: Status, data: seq<byte>)
    requires g.Ok() && g.reach == AS_WRITTEN && ParsedBlock(decl.body)
    requires forall i :: 0 <= i < |decl.params| ==> decl.params[i].ty != Unknown
    ensures FuncDone(g, decl, status, data)
  {
    assert FUNC_PAGE >= 5;
    hide *;
    FuncSetup(decl);
    data := [];
    var emitter := new Buffered(FUNC_PAGE);
    var scope := new ScopeHandler.Root(true, 128, Paged(emitter));
    RootBound(scope, decl.params);
    status := BindParameters(scope, decl.params);
    if status == Panicked {
      FuncStops(g, decl, status, scope.Abs(), scope.Log());
      return;
    }
    BoundScope(scope, decl.params);
    status := CompileScope(g, scope, decl.body);
    if status == Panicked || status == Overrun {
      FuncStops(g, decl, status, scope.Abs(), scope.Log());
      return;
    }
    FuncFinishes(g, decl, status, scope.Abs(), scope.Log());
    data := WithHeader(scope);
    status := Success;
  }

  lemma RootBound(scope: ScopeHandler, params: seq<Param>)
    requires scope.Abs() == Scope([], 0, 128, 0, 0, 0) && scope.vars == [] && scope.outer == []
    ensures Bound(scope, params, 0) && scope.Log() == scope.emitter.Log()
  {
  }

  lemma BoundScope(scope: ScopeHandler, params: seq<Param>)
    requires Bound(scope, params, |params|)
    ensures scope.Abs() == FuncScope(params) && scope.AllVars() == ParamVars(params)
  {
    assert params[..|params|] == params;
    assert scope.Abs().vars == scope.AllVars();
  }

  /** The header and the sunk body. */
  method WithHeader(scope: ScopeHandler) returns (data: seq<byte>)
    requires scope.Ready() && scope.emitter.Paged?
    ensures data == Header(scope.Abs().vmax, scope.Abs().smax) + Flat(scope.Log())
  {
    hide ScopeHandler.Ready;
    var bodySize := SizeIn(scope);
    var vars, stack := scope.max.vars % 0x1_0000, scope.max.stack % 0x1_0000;
    var exec := new byte[bodySize + 4](_ => 0);
    exec[0], exec[1], exec[2], exec[3] := vars / 0x100, vars % 0x100, stack / 0x100, stack % 0x100;
    ghost var head := exec[..];
    Pour(scope, exec, 4);
    data := exec[..];
    assert head[..4] == Header(scope.Abs().vmax, scope.Abs().smax);
  }

  // ---- registration ----

  function Letter(ty: Ty): char {
    match ty
    case TInt => 'I'
    case TFlt => 'F'
    case Unknown => 'V'
  }

  function Letters(tys: seq<Ty>): (s: string)
    ensures |s| == |tys|
  {
    seq(|tys|, i requires 0 <= i < |tys| => Letter(tys[i]))
  }

  function Signature(name: string, params: seq<Ty>, ret: Ty): string {
    name + "(" + Letters(params) + ")" + [Letter(ret)]
  }

  lemma SignatureShape(name: string, params: seq<Ty>, ret: Ty)
    ensures var (s, n) := (Signature(name, params, ret), |name|);
            && |s| == n + |params| + 3 && s[n] == '(' && s[n + 1 + |params|] == ')'
            && (forall i :: 0 <= i < n ==> s[i] == name[i])
            && (forall i :: 0 <= i < |params| ==> s[n + 1 + i] == Letter(params[i]))
            && s[|s| - 1] == Letter(ret)
    ensures Letter(TInt) == 'I' && Letter(TFlt) == 'F' && Letter(Unknown) == 'V'
  {
  }

  lemma NoParenthesis(name: string)
    requires '(' !in name
    ensures forall i :: 0 <= i < |name| ==> name[i] != '('
  {
  }

  /** Argument words by the letters between the parentheses; `None` for a letter
      that is neither of the two known ones. */
  method ArgumentWords(ghost name: string, ghost params: seq<Ty>, ghost ret: Ty, signature: string)
    returns (words: Option<nat>)
    requires signature == Signature(name, params, ret) && '(' !in name
    ensures words == if Unknown in params then None else Some(|params|)
  {
    SignatureShape(name, params, ret);
    NoParenthesis(name);
    hide Signature, Letters;
    var i := 0;
    while signature[i] != '('
      invariant i <= |name|
      decreases |name| - i
    {
      i := i + 1;
    }
    i := i + 1;
    var count := 0;
    while signature[i] != ')'
      invariant count <= |params| && i == |name| + 1 + count
      invariant Unknown !in params[..count]
      decreases |params| - count
    {
      assert signature[i] == Letter(params[count]) || count == |params|;
      if signature[i] == 'I' || signature[i] == 'F' {
        assert params[..count + 1] == params[..count] + [params[count]];
        count := count + 1;
        i := i + 1;
      } else {
        return None;
      }
    }
    assert count < |params| ==> signature[i] == Letter(params[count]);
    assert count == |params| && params[..count] == params;
    words := Some(count);
  }

  /** What the virtual machine records for a function: the header's words, with
      the operand memory in whole words, and the code behind the header. */
  function RegisteredAs(argc: nat, data: seq<byte>): Func
    requires |data| >= 4
  {
    Func(argc, FromBe16(data[0], data[1]), FromBe16(data[2], data[3]) / 4, data[4..])
  }

  /** Registers it under its signature, whose letters tell the argument words. */
  method RegisterFunction(ghost name: string, ghost params: seq<Ty>, ghost ret: Ty, signature: string, data: seq<byte>)
    returns (f: Option<Func>)
    requires signature == Signature(name, params, ret) && '(' !in name && |data| >= 4
    ensures f == if Unknown in params then None
                 else Some(RegisteredAs(|params|, data))
  {
    var words := ArgumentWords(name, params, ret, signature);
    if words.None? {
      return None;
    }
    var varsSize := FromBe16(data[0], data[1]) * 4;
    var stackSize := FromBe16(data[2], data[3]);
    f := Some(Func(words.value, varsSize / 4, stackSize / 4, data[4..]));
  }

  /** A 16-bit word is read back as written exactly when the number fits. */
  lemma WordRoundTrip(n: nat)
    ensures var bs := Be16(n % 0x1_0000);
            && |bs| == 2 && FromBe16(bs[0], bs[1]) == n % 0x1_0000
            && (FromBe16(bs[0], bs[1]) == n <==> n < 0x1_0000)
  {
    Be16RoundTrip(n % 0x1_0000);
    hide Be16, FromBe16;
  }

  lemma WordBytes(n: nat)
    ensures Be16(n % 0x1_0000) == [n / 0x100 % 0x100, n % 0x100]
  {
    var q, h, l := n / 0x100 / 0x100, n / 0x100 % 0x100, n % 0x100;
    assert n == q * 0x1_0000 + (h * 0x100 + l);
    assert n % 0x1_0000 == h * 0x100 + l;
  }

  /** The header is two words, high byte first. It is read back modulo 16 bits, so as written
      exactly when both sizes fit. */
  lemma HeaderRoundTrip(vmax: nat, smax: nat, code: seq<byte>)
    ensures var data := Header(vmax, smax) + code;
            && data == [vmax / 0x100 % 0x100, vmax % 0x100, smax / 0x100 % 0x100, smax % 0x100] + code
            && data[4..] == code
            && FromBe16(data[0], data[1]) == vmax % 0x1_0000 && FromBe16(data[2], data[3]) == smax % 0x1_0000
            && (FromBe16(data[0], data[1]) == vmax <==> vmax < 0x1_0000)
            && (FromBe16(data[2], data[3]) == smax <==> smax < 0x1_0000)
  {
    WordRoundTrip(vmax);
    WordRoundTrip(smax);
    WordBytes(vmax);
    WordBytes(smax);
    hide Be16, FromBe16;
    var (v, s) := (Be16(vmax % 0x1_0000), Be16(smax % 0x1_0000));
    var data := Header(vmax, smax) + code;
    assert data[0] == v[0] && data[1] == v[1] && data[2] == s[0] && data[3] == s[1];
  }

  ghost predicate Aligned(sc: Scope) { sc.ssize % 4 == 0 && sc.smax % 4 == 0 }

  lemma ChildAligned(sc: Scope, ssize: nat)
    requires Aligned(sc)
    ensures sc.ssize % 4 == 0
    ensures ssize % 4 == 0 ==> Aligned(Child(sc, ssize))
  {
  }

  lemma BackAligned(sc: Scope, child: Scope)
    requires Aligned(sc) && Aligned(child)
    ensures Aligned(Back(sc, child))
  {
  }

  lemma PushedAligned(sc: Scope, c: ECode, e: Expr)
    requires Aligned(sc)
    ensures Aligned(Pushed(sc, c, e))
  {
    hide Depth;
  }

  lemma {:induction false} ArgsAligned(sc: Scope, args: seq<Expr>)
    requires Aligned(sc) && ArgsCode(sc, args).SCode?
    ensures Aligned(ArgsCode(sc, args).sc)
    decreases args
  {
    hide Aligned, ExprCode, Pushed;
    if args != [] {
      var c := ExprCode(sc.vars, args[0]);
      PushedAligned(sc, c, args[0]);
      ArgsAligned(Pushed(sc, c, args[0]), args[1..]);
    }
  }

  lemma AssignAligned(sc: Scope, x: string, e: Expr)
    requires sc.off <= |sc.vars| && Aligned(sc) && AssignCode(sc, x, e).SCode?
    ensures Aligned(AssignCode(sc, x, e).sc)
  {
    hide ExprCode, Depth, Encode, CastTo, Aligned, Pushed, SaveInstr;
    var c := ExprCode(sc.vars, e);
    if c.ECode? {
      ResetAligned(sc, sc, c, e);
    }
    if c.ECode? && Define(sc, x, c.ty).Some? {
      ResetAligned(sc, Define(sc, x, c.ty).value, c, e);
    }
  }

  lemma ResetAligned(sc: Scope, sc1: Scope, c: ECode, e: Expr)
    requires Aligned(sc) && sc1.ssize == sc.ssize && sc1.smax == sc.smax && c.ECode?
    ensures Aligned(Pushed(sc1, ECode(c.code, c.ty), e).(ssize := sc.ssize))
  {
    PushedAligned(sc1, ECode(c.code, c.ty), e);
  }

  /** Stack sizes are tracked in whole words. */
  lemma {:induction false} StmtAligned(g: Globals, sc: Scope, s: Stmt)
    requires g.Ok() && sc.off <= |sc.vars| && Aligned(sc) && StmtCode(g, sc, s).SCode?
    ensures Aligned(StmtCode(g, sc, s).sc)
    decreases s
  {
    hide Aligned, ExprCode, Pushed, AssignCode, ArgsCode, BlockCode, IfTail, WhileTail;
    match s
    case Assign(x, e) => AssignAligned(sc, x, e);
    case Bare(e) => PushedAligned(sc, ExprCode(sc.vars, e), e);
    case Call(f, args) => ArgsAligned(sc, args);
    case If(e, t, f) =>
      var sc1 := Pushed(sc, ExprCode(sc.vars, e), e);
      PushedAligned(sc, ExprCode(sc.vars, e), e);
      var ct := BlockCode(g, Child(sc1, sc1.ssize), t);
      var cf := BlockCode(g, Child(Back(sc1, ct.sc), sc1.ssize), f);
      ChildAligned(sc1, sc1.ssize);
      BlockAligned(g, Child(sc1, sc1.ssize), t);
      BackAligned(sc1, ct.sc);
      ChildAligned(Back(sc1, ct.sc), sc1.ssize);
      BlockAligned(g, Child(Back(sc1, ct.sc), sc1.ssize), f);
      BackAligned(Back(sc1, ct.sc), cf.sc);
    case While(e, body) =>
      var sc1 := Pushed(sc, ExprCode(sc.vars, e), e);
      PushedAligned(sc, ExprCode(sc.vars, e), e);
      ChildAligned(sc1, 0);
      BlockAligned(g, Child(sc1, 0), body);
      BackAligned(sc1, BlockCode(g, Child(sc1, 0), body).sc);
  }

  lemma {:induction false} BlockAligned(g: Globals, sc: Scope, b: Block)
    requires g.Ok() && sc.off <= |sc.vars| && Aligned(sc) && BlockCode(g, sc, b).SCode?
    ensures Aligned(BlockCode(g, sc, b).sc)
    decreases b
  {
    hide Aligned, StmtCode;
    if b.Then? {
      StmtAligned(g, sc, b.head);
      BlockAligned(g, StmtCode(g, sc, b.head).sc, b.tail);
    }
  }

  /** A declaration the compiler has room for: no void parameter, at most 128 of them, and
      every spliced piece is taken by the pages it goes to. */
  ghost predicate HasRoom(g: Globals, decl: FuncDecl)
    requires g.Ok()
  {
    Declarable(decl) && PagesFitBlock(g, FuncScope(decl.params), decl.body, Some(256), 0)
  }

  ghost predicate Declarable(decl: FuncDecl) {
    Unknown !in ParamTypes(decl) && |decl.params| <= 128
  }

  /** How a definition ends. */
  ghost predicate Ends(g: Globals, decl: FuncDecl, status: Status)
    requires g.Ok()
  {
    var r := BlockCode(g, FuncScope(decl.params), decl.body);
    && (status == Success <==> HasRoom(g, decl) && r.SCode?)
    && (status == Panicked <==> !Declarable(decl) || (HasRoom(g, decl) && r.SPanic?))
    && (status == Overrun <==> Declarable(decl) && !HasRoom(g, decl))
    && status != Unresolved
  }

  /** What is registered when it succeeds: the compiled declaration, with the operand memory
      its compilation asked for. */
  ghost predicate Answers(g: Globals, decl: FuncDecl, status: Status, f: Option<Func>)
    requires g.Ok()
  {
    var r := BlockCode(g, FuncScope(decl.params), decl.body);
    && Ends(g, decl, status) && (f.Some? <==> status == Success)
    && (status == Success ==>
          && f.value.body == r.code && f.value.argc == |decl.params|
          && f.value.nvars == r.sc.vmax % 0x1_0000 && 4 * f.value.nstack == r.sc.smax % 0x1_0000
          && (Distinct(ParamVars(decl.params)) && FitsBlock(g, FuncScope(decl.params), decl.body) && r.sc.vmax <= 0x100
              ==> Compiled(g, decl, f.value)))
  }

  lemma Registered(g: Globals, decl: FuncDecl, data: seq<byte>)
    requires g.Ok() && Unknown !in ParamTypes(decl) && FuncDone(g, decl, Success, data)
    ensures |data| >= 4 && Answers(g, decl, Success, Some(RegisteredAs(|decl.params|, data)))
  {
    var r := BlockCode(g, FuncScope(decl.params), decl.body);
    HeaderRoundTrip(r.sc.vmax, r.sc.smax, r.code);
    BlockAligned(g, FuncScope(decl.params), decl.body);
    WholeWords(r.sc.smax);
    forall i | 0 <= i < |decl.params| ensures decl.params[i].ty != Unknown {
      assert ParamTypes(decl)[i] == decl.params[i].ty;
    }
    hide BlockCode, FitsBlock, PagesFitBlock, Distinct, Header, FromBe16, HasRoom;
    HasRoomIs(g, decl);
  }

  lemma HasRoomIs(g: Globals, decl: FuncDecl)
    requires g.Ok()
    ensures HasRoom(g, decl) <==>
              Declarable(decl) && PagesFitBlock(g, FuncScope(decl.params), decl.body, Some(FUNC_PAGE), 0)
  {
  }

  lemma WholeWords(n: nat)
    requires n % 4 == 0
    ensures 4 * (n % 0x1_0000 / 4) == n % 0x1_0000
  {
  }

  /** From a declaration to a registered function. A parameter declared void is no concern
      of the compiler, but its letter makes the registration panic, whatever the body
      compiles to. */
  method DefineFunction(g: Globals, decl: FuncDecl, name: string, ret: Ty) returns (status: Status, f: Option<Func>)
    requires g.Ok() && g.reach == AS_WRITTEN && ParsedBlock(decl.body) && '(' !in name
    ensures Answers(g, decl, status, f)
  {
    var types := ParamTypes(decl);
    f := None;
    if Unknown in types {
      return Panicked, f;
    }
    forall i | 0 <= i < |decl.params| ensures decl.params[i].ty != Unknown {
      assert types[i] == decl.params[i].ty;
    }
    hide BlockCode, FitsBlock, PagesFitBlock, ParsedBlock, Distinct;
    var data;
    status, data := CompileFunc(g, decl);
    if status != Success {
      return;
    }
    hide RegisteredAs;
    Registered(g, decl, data);
    f := RegisterFunction(name, types, ret, Signature(name, types, ret), data);
  }
}
