/** Declaring functions as it is written: the tables of names, constants and functions
    that the compiler and the virtual machine update in place. */
module Linker {
  import opened Words
  import opened Ast
  import opened Machine
  import opened Codegen
  import opened StmtCorrect
  import opened ExprCompiler
  import opened StmtCompiler
  import opened Linking
  import FuncCompiler

  /** What is known of a compiled function of the tables `r`. */
  ghost predicate Defined(r: Registry, name: string, decl: FuncDecl, desc: Desc, func: Func) {
    var g := GlobalsOf(Begun(r, name, desc), AS_WRITTEN);
    g.Ok() && Admissible(g, decl) ==> Compiled(g, decl, func)
  }

  /** Within the limits that the compiler does not check. */
  ghost predicate Admissible(g: Globals, decl: FuncDecl)
    requires g.Ok()
  {
    var r := BlockCode(g, FuncScope(decl.params), decl.body);
    && ExprCorrect.Distinct(ParamVars(decl.params)) && FitsBlock(g, FuncScope(decl.params), decl.body)
    && (r.SCode? ==> r.sc.vmax <= 0x100)
  }

  /** Whether a new name is declared, stops the compiler, or overruns a page. */
  ghost predicate Decided(r: Registry, name: string, decl: FuncDecl, desc: Desc, status: Status) {
    var g := GlobalsOf(Begun(r, name, desc), AS_WRITTEN);
    g.Ok() && FuncCompiler.Ends(g, decl, status)
  }

  class Tables {
    /** Names, in `global_func_map`. */
    var descs: map<string, Desc>
    /** Indices of signatures, in `const_pool_map`. */
    var indices: map<string, nat>
    var count: nat
    /** The machine's constants, and its functions by signature. */
    var pool: Pool
    var handles: map<string, Func>

    ghost var order: seq<string>
    ghost var consts: seq<string>

    ghost function Abs(): Registry
      reads this
    {
      Registry(descs, indices, pool, handles, order, consts)
    }

    ghost predicate Valid()
      reads this
    {
      Consistent(Abs()) && count == |order|
    }

    constructor ()
      ensures Valid() && Abs().order == [] && Abs().descs == map[] && !Abs().pool.moves
    {
      descs, indices, count, handles := map[], map[], 0, map[];
      pool := Pool([], map[], 0, false);
      order, consts := [], [];
    }

    /** The name is entered, the body compiled, then the signature gets its index and its
        place in the pool, and the function its handle. A second declaration of a name
        stops the compiler. */
    method Declare(name: string, decl: FuncDecl, ret: Ty) returns (status: Status)
      requires Valid() && '(' !in name && ParsedBlock(decl.body) && |order| < 0x1_0000
      modifies this
      ensures name in old(descs) ==> status == Panicked
      ensures name !in old(descs) ==>
                Decided(old(Abs()), name, decl, Desc(decl, FuncCompiler.Signature(name, ParamTypes(decl), ret)), status)
      ensures status == Success ==>
                var desc := Desc(decl, FuncCompiler.Signature(name, ParamTypes(decl), ret));
                && Valid() && desc.signature in handles && old(name !in descs)
                && Abs() == Declared(old(Abs()), name, desc, handles[desc.signature])
                && Defined(old(Abs()), name, decl, desc, handles[desc.signature])
    {
      hide *;
      Parts();
      if name in descs {
        return Panicked;
      }
      ghost var before := Abs();
      var types := ParamTypes(decl);
      var signature := FuncCompiler.Signature(name, types, ret);
      var desc := Desc(decl, signature);
      DeclareSetup(before, name, decl, desc, ret);
      descs := descs[name := desc];
      Parts();
      var func;
      status, func := FuncCompiler.DefineFunction(Known(), decl, name, ret);
      Learnt(before, name, decl, desc, status, func);
      if status != Success {
        return;
      }
      indices := indices[signature := count % 0x1_0000];
      count := count + 1;
      pool := AddConstant(pool, signature);
      handles := handles[signature := func.value];
      order, consts := order + [name], consts + [signature];
      Extended(before, name, desc, func.value);
    }

    lemma Parts()
      ensures Abs() == Registry(descs, indices, pool, handles, order, consts) && Known() == GlobalsOf(Abs(), AS_WRITTEN)
      ensures Valid() ==> Consistent(Abs()) && count == |order|
    {
    }

    lemma Extended(before: Registry, name: string, desc: Desc, func: Func)
      requires Consistent(before) && name !in before.descs && Signs(name, desc.signature) && |before.order| < 0x1_0000
      requires count == |before.order| + 1 && descs == before.descs[name := desc]
      requires indices == before.indices[desc.signature := |before.order| % 0x1_0000]
      requires pool == AddConstant(before.pool, desc.signature) && handles == before.handles[desc.signature := func]
      requires order == before.order + [name] && consts == before.consts + [desc.signature]
      ensures Valid() && Abs() == Declared(before, name, desc, func)
    {
      DeclaredSound(before, name, desc, func);
    }

    /** What the compiler knows of the functions. A signature without an index reads as
        index 0. */
    function Known(): Globals
      reads this
    {
      Globals(map f | f in descs :: Codegen.Signature(Index(descs[f].signature), ParamTypes(descs[f].decl)), AS_WRITTEN)
    }

    function Index(signature: string): nat
      reads this
    {
      if signature in indices then indices[signature] else 0
    }
  }

  lemma DeclareSetup(r: Registry, name: string, decl: FuncDecl, desc: Desc, ret: Ty)
    requires Consistent(r) && name !in r.descs && '(' !in name
    requires desc == Desc(decl, FuncCompiler.Signature(name, ParamTypes(decl), ret))
    ensures Signs(name, desc.signature) && GlobalsOf(Begun(r, name, desc), AS_WRITTEN).Ok()
    ensures Begun(r, name, desc) == r.(descs := r.descs[name := desc])
            && GlobalsOf(Begun(r, name, desc), AS_WRITTEN).reach == AS_WRITTEN
  {
    FuncCompiler.SignatureShape(name, ParamTypes(decl), ret);
    assert desc.signature[..|name|] == name;
    NewSignature(r, name, desc.signature);
    GlobalsOk(r, AS_WRITTEN);
    BegunGrows(r, name, desc, AS_WRITTEN);
  }

  lemma Learnt(r: Registry, name: string, decl: FuncDecl, desc: Desc, status: Status, f: Option<Func>)
    requires var g := GlobalsOf(Begun(r, name, desc), AS_WRITTEN);
             && g.Ok() && FuncCompiler.Answers(g, decl, status, f)
    ensures status == Success ==> f.Some? && Defined(r, name, decl, desc, f.value)
    ensures Decided(r, name, decl, desc, status)
  {
    hide BlockCode, FitsBlock, GlobalsOf, Compiled;
  }
}
