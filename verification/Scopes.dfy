/** The compiler's scope records: variables with their slots, the tracked operand
    stack, and the maxima kept in the root scope and reached through pointers. */
module Scopes {
  import opened Words
  import opened Ast
  import opened Codegen
  import opened Emitter
  import opened Unbuffered

  /** One entry of a scope's variable array. */
  datatype ScopeVar = ScopeVar(v: Var, index: byte)

  function Plain(vars: seq<ScopeVar>): (r: seq<Var>)
    ensures |r| == |vars|
  {
    seq(|vars|, i requires 0 <= i < |vars| => vars[i].v)
  }

  lemma {:induction false} LookupConcat(a: seq<Var>, b: seq<Var>, x: string)
    ensures Lookup(a + b, x) ==
            if Lookup(a, x).Some? then Lookup(a, x)
            else if Lookup(b, x).Some? then Some(|a| + Lookup(b, x).value) else None
  {
    if a == [] {
      assert a + b == b;
    } else {
      assert (a + b)[1..] == a[1..] + b;
      LookupConcat(a[1..], b, x);
    }
  }

  /** The two counters that `vars_max_size_ptr` and `stack_max_size_ptr` of every
      scope below a root point to. */
  class Maxima {
    var vars: nat
    var stack: nat

    constructor ()
      ensures vars == 0 && stack == 0
    {
      vars, stack := 0, 0;
    }
  }

  /** The two kinds of emitters: pages, or the interpreter itself. */
  datatype Output = Paged(pages: Buffered) | Streamed(direct: Direct) {
    ghost function Self(): object {
      match this case Paged(e) => e case Streamed(e) => e
    }

    ghost function Repr(): set<object>
      reads Self()
    {
      match this case Paged(e) => e.Repr() case Streamed(e) => e.Repr()
    }

    /** The chunks emitted so far. */
    ghost function Log(): seq<seq<byte>>
      reads (if Paged? then {pages} else {})`log, (if Streamed? then {direct} else {})`log
    {
      match this case Paged(e) => e.log case Streamed(e) => e.log
    }

    function PageSize(): Option<pagesize> {
      match this case Paged(e) => Some(e.pageSize) case Streamed(_) => None
    }

    /** A working emitter together with everything it consists of. */
    ghost predicate Backed(memory: set<object>)
      reads memory
    {
      && Self() in memory && memory == Repr() && (Paged? ==> pages.pageSize >= 5)
      && match this case Paged(e) => e.Valid() case Streamed(e) => e.Valid()
    }
  }

  class ScopeHandler {
    const parent: ScopeHandler?
    const isFunction: bool
    const varsOff: nat
    const varsCap: nat
    const max: Maxima
    var vars: seq<ScopeVar>
    var stackSize: nat
    var emitter: Output

    /** The enclosing scopes, and their variables, which stay as they are while
        this scope is open. */
    ghost const ancestors: set<ScopeHandler>
    ghost const outer: seq<Var>
    /** What the emitter consists of. */
    ghost var memory: set<object>

    ghost predicate Valid()
      reads this`vars, ancestors`vars
      decreases |ancestors|
    {
      && varsOff == |outer|
      && (forall k :: 0 <= k < |vars| ==>
            vars[k].index == (varsOff + k) % 0x100 && Lookup(outer, vars[k].v.name).None?)
      && (if parent == null then ancestors == {} && outer == []
          else
            && parent in ancestors && parent !in parent.ancestors && ancestors == parent.ancestors + {parent}
            && this !in ancestors && !isFunction && parent.max == max
            && parent.AllVars() == outer && parent.Valid())
    }

    /** All visible variables, outermost first: a position is a slot. */
    ghost function AllVars(): seq<Var>
      reads this`vars
    {
      outer + Plain(vars)
    }

    ghost function Abs(): Scope
      reads this`vars, this`stackSize, max
    {
      Scope(AllVars(), varsOff, varsCap, stackSize, max.vars, max.stack)
    }

    /** Ready to compile into: the emitter works and takes every instruction. */
    ghost predicate Ready()
      reads this`vars, this`emitter, this`memory, ancestors`vars, memory
    {
      Valid() && emitter.Backed(memory)
    }

    /** The chunks emitted so far. */
    ghost function Log(): seq<seq<byte>>
      reads this`emitter
      reads (if emitter.Paged? then {emitter.pages} else {})`log
      reads (if emitter.Streamed? then {emitter.direct} else {})`log
    {
      emitter.Log()
    }

    /** Scope records are not part of an emitter. */
    lemma Apart()
      requires Ready()
      ensures this !in memory && max !in memory && ancestors !! memory
    {
    }

    /** The scope of a function, or the outermost one. */
    constructor Root(isFunction: bool, cap: nat, emitter: Output)
      requires emitter.Backed(emitter.Repr())
      ensures Ready() && fresh(max) && this.emitter == emitter && memory == emitter.Repr()
      ensures Abs() == Scope([], 0, cap, 0, 0, 0) && vars == [] && outer == [] && ancestors == {}
    {
      hide Buffered.Valid, Direct.Valid;
      assert forall o :: o in emitter.Repr() ==> allocated(o);
      this.isFunction, varsCap, this.emitter := isFunction, cap, emitter;
      parent, varsOff, vars, stackSize := null, 0, [], 0;
      ancestors, outer := {}, [];
      max := new Maxima();
      memory := emitter.Repr();
    }

    /** The scope of a branch or a loop body. */
    constructor Child(parent: ScopeHandler, root: ScopeHandler, stackSize: nat, emitter: Buffered)
      requires parent.Valid() && parent !in parent.ancestors && parent.max == root.max
      requires emitter.Valid() && emitter.pageSize >= 5
      ensures Ready() && max == parent.max && this.emitter == Paged(emitter) && memory == emitter.Repr()
      ensures Abs() == Codegen.Child(parent.Abs(), stackSize) && outer == parent.AllVars()
      ensures ancestors == parent.ancestors + {parent}
    {
      hide Buffered.Valid;
      assert forall o :: o in emitter.Nodes() || o in emitter.Buffers() ==> allocated(o);
      this.parent, isFunction := parent, false;
      varsOff, varsCap := |parent.vars| + parent.varsOff, parent.varsCap;
      max := root.max;
      vars, this.stackSize, this.emitter := [], stackSize, Paged(emitter);
      ancestors, outer := parent.ancestors + {parent}, parent.AllVars();
      memory := emitter.Repr();
    }

    /** The root scope, whose counters a child's pointers are set to. */
    method FindRootScope() returns (root: ScopeHandler)
      requires Valid()
      ensures root.max == max && (root == this || root in ancestors)
      ensures root.parent == null
    {
      root := this;
      while root.parent != null && !root.isFunction
        invariant root.Valid() && root.max == max && (root == this || root in ancestors)
        invariant root.ancestors <= ancestors
        decreases |root.ancestors|
      {
        root := root.parent;
      }
    }

    /** First the scope's own variables, then the enclosing ones. */
    method LookupVar(name: string) returns (found: Option<ScopeVar>)
      requires Valid()
      ensures match Lookup(AllVars(), name)
              case None => found == None
              case Some(k) => found == Some(ScopeVar(AllVars()[k], k % 0x100))
      decreases |ancestors|
    {
      LookupConcat(outer, Plain(vars), name);
      for i := 0 to |vars|
        invariant forall k :: 0 <= k < i ==> vars[k].v.name != name
      {
        if vars[i].v.name == name {
          assert Plain(vars)[i] == vars[i].v;
          return Some(vars[i]);
        }
      }
      if parent != null && !isFunction {
        found := parent.LookupVar(name);
      } else {
        found := None;
      }
    }

    /** Appends a variable; `None` when the array is full. */
    method DefineVar(ty: Ty, name: string) returns (found: Option<ScopeVar>)
      requires Valid() && Lookup(outer, name).None?
      modifies this`vars, max`vars
      ensures Valid()
      ensures match Define(old(Abs()), name, ty)
              case None => found == None && Abs() == old(Abs())
              case Some(sc) => found == Some(ScopeVar(Var(name, ty), |old(AllVars())| % 0x100)) && Abs() == sc
    {
      if |vars| >= varsCap {
        return None;
      }
      var index := (|vars| + varsOff) % 0x100;
      var v := ScopeVar(Var(name, ty), index);
      vars := vars + [v];
      assert Plain(vars) == Plain(old(vars)) + [v.v];
      if |vars| + varsOff > max.vars {
        max.vars := |vars| + varsOff;
      }
      found := Some(v);
    }

    method IncrementStackSize(size: int)
      requires stackSize + size >= 0
      modifies this`stackSize, max`stack
      ensures stackSize == old(stackSize) + size && max.stack == Max(old(max.stack), stackSize)
    {
      stackSize := stackSize + size;
      if stackSize > max.stack {
        max.stack := stackSize;
      }
    }

    /** Hands the emitter a chunk, which only a paged one may refuse. */
    method Emit(chunk: seq<byte>) returns (ok: bool)
      requires Ready()
      modifies this`memory, memory
      ensures Ready() && fresh(memory - old(memory)) && emitter == old(emitter) && vars == old(vars)
      ensures Log() == if ok then old(Log()) + [chunk] else old(Log())
      ensures ok <==> Accepts(emitter.PageSize(), |Flat(old(Log()))|, |chunk|)
      ensures |chunk| <= 5 ==> ok
    {
      hide Valid;
      hide Buffered.Valid, Direct.Valid;
      Apart();
      match emitter {
        case Paged(e) =>
          ok := e.Emit(chunk);
        case Streamed(e) =>
          e.Emit(chunk);
          ok := true;
      }
      memory := emitter.Repr();
    }
  }
}
