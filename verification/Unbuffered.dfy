/** The interactive emitter: every chunk is executed as soon as it is emitted, on
    the outermost frame. */
module Unbuffered {
  import opened Words
  import opened Machine
  import opened Runs
  import opened ControlFlow
  import opened Streaming
  import opened Interpreter
  import opened Session

  ghost predicate AllClosed(chunks: seq<seq<byte>>) {
    forall c :: c in chunks ==> Closed(c)
  }

  /** Executing `chunks` one after the other has come out as `status`. */
  ghost predicate Came(m: Vm, chunks: seq<seq<byte>>, d: Data, n: nat, status: Ending, d': Data, moved: int) {
    BodiesClosed(m) && AllClosed(chunks) ==>
      && Streams(m, chunks, d, n, FateOf(status, d'))
      && (status.Finished? ==> moved == |Flat(chunks)|)
  }

  class Direct {
    const m: Vm
    const frame: Context
    /** Machine steps that may still be taken, and how execution stands. Once it
        has failed, or is still running, nothing emitted later is executed. */
    var left: nat
    var status: Ending

    ghost const budget: nat
    ghost const start: Data
    ghost const startPc: int
    /** The chunks emitted so far. */
    ghost var log: seq<seq<byte>>

    ghost function Repr(): set<object> {
      {this, frame, frame.stack, frame.locals}
    }

    ghost predicate Valid()
      reads this, frame, frame.stack, frame.locals
    {
      && frame.Valid() && m.checked && left <= budget && (status.OutOfFuel? ==> left == 0)
      && Came(m, log, start, budget - left, status, DataOf(frame), frame.framePc - startPc)
    }

    constructor (m: Vm, frame: Context, budget: nat)
      requires frame.Valid() && m.checked
      ensures Valid() && log == [] && this.m == m && this.frame == frame && this.budget == left == budget
      ensures start == DataOf(frame) && startPc == frame.framePc && status == Finished
    {
      this.m, this.frame, left, status := m, frame, budget, Finished;
      this.budget, start, startPc, log := budget, DataOf(frame), frame.framePc, [];
    }

    /** The chunk is executed, and what has happened so far stays true. */
    method Emit(chunk: seq<byte>)
      requires Valid()
      modifies this`left, this`status, this`log, frame`framePc, frame`sp, frame.stack, frame.locals
      ensures Valid() && log == old(log) + [chunk] && left <= old(left)
      ensures !old(status).Finished? ==>
                status == old(status) && left == old(left) && DataOf(frame) == old(DataOf(frame))
    {
      hide *;
      Unfold();
      ghost var d, n, k, moved := DataOf(frame), budget - left, left, frame.framePc - startPc;
      if status.Finished? {
        var pc;
        ghost var s;
        FrameIs(frame, chunk, 0);
        status, pc, left, s := ExecuteOpcodes(m, frame, 0, chunk, left, []);
        ReportsMean(m, Mid(chunk, 0, d), k - left, status, s);
        if status.Finished? { FrameIs(frame, chunk, pc); }
        CameOn(m, log, start, n, d, moved, chunk, k - left, status, s, DataOf(frame), pc, frame.framePc - startPc);
      } else {
        CameNoFurther(m, log, start, n, status, d, moved, chunk);
      }
      log := log + [chunk];
      Fold();
    }

    lemma Unfold()
      requires Valid()
      ensures frame.Valid() && m.checked && left <= budget && (status.OutOfFuel? ==> left == 0)
      ensures Came(m, log, start, budget - left, status, DataOf(frame), frame.framePc - startPc)
    {
    }

    lemma Fold()
      requires frame.Valid() && m.checked && left <= budget && (status.OutOfFuel? ==> left == 0)
      requires Came(m, log, start, budget - left, status, DataOf(frame), frame.framePc - startPc)
      ensures Valid()
    {
    }
  }

  lemma {:induction false} StreamsSnoc(m: Vm, chunks: seq<seq<byte>>, d: Data, n: nat, d1: Data, chunk: seq<byte>,
                                       k: nat, fate: Fate)
    requires Streams(m, chunks, d, n, Ends(d1)) && Fares(m, chunk, d1, k, fate)
    ensures Streams(m, chunks + [chunk], d, n + k, fate)
    decreases |chunks|
  {
    hide Fares;
    var longer := chunks + [chunk];
    if chunks == [] {
      assert longer[0] == chunk && longer[1..] == [];
      if fate.Ends? { assert Streams(m, longer[1..], fate.d, 0, fate); }
    } else {
      var n1: nat, d2 :| n1 <= n && Fares(m, chunks[0], d, n1, Ends(d2))
          && Streams(m, chunks[1..], d2, n - n1, Ends(d1));
      StreamsSnoc(m, chunks[1..], d2, n - n1, d1, chunk, k, fate);
      assert longer[1..] == chunks[1..] + [chunk] && longer[0] == chunks[0];
      assert Streams(m, longer[1..], d2, n + k - n1, fate);
    }
  }

  lemma {:induction false} StreamsStuck(m: Vm, chunks: seq<seq<byte>>, d: Data, n: nat, fate: Fate, chunk: seq<byte>)
    requires Streams(m, chunks, d, n, fate) && !fate.Ends?
    ensures Streams(m, chunks + [chunk], d, n, fate)
    decreases |chunks|
  {
    hide Fares;
    var longer := chunks + [chunk];
    assert longer[1..] == chunks[1..] + [chunk] && longer[0] == chunks[0];
    if !Fares(m, chunks[0], d, n, fate) {
      var n1: nat, d1 :| n1 <= n && Fares(m, chunks[0], d, n1, Ends(d1)) && Streams(m, chunks[1..], d1, n - n1, fate);
      StreamsStuck(m, chunks[1..], d1, n - n1, fate, chunk);
    }
  }

  /** One executed chunk more. */
  lemma CameOn(m: Vm, chunks: seq<seq<byte>>, d0: Data, n: nat, d: Data, moved: int, chunk: seq<byte>, k: nat,
               status: Ending, s: Frames, d': Data, pc: int, moved': int)
    requires Came(m, chunks, d0, n, Finished, d, moved)
    requires match status
             case Finished => Takes(m, Mid(chunk, 0, d), k, At(s)) && Halted(s) && s == Mid(chunk, pc, d')
             case Trapped(why) => Takes(m, Mid(chunk, 0, d), k, Trap(why))
             case OutOfFuel => Takes(m, Mid(chunk, 0, d), k, At(s)) && !Halted(s)
    requires status.Finished? ==> moved' == moved + pc
    ensures Came(m, chunks + [chunk], d0, n + k, status, d', moved')
  {
    hide Takes, Closed, BodiesClosed, Streams, StateOk;
    if BodiesClosed(m) && AllClosed(chunks + [chunk]) {
      assert chunk in chunks + [chunk];
      assert forall c :: c in chunks ==> c in chunks + [chunk];
      FlatSnoc(chunks, chunk);
      BootOk(chunk, d);
      match status {
        case Finished => ChunkEnds(m, chunk, d, k, s);
        case Trapped(why) => NeverTruncated(m, Mid(chunk, 0, d), k);
        case OutOfFuel =>
      }
      StreamsSnoc(m, chunks, d0, n, d, chunk, k, FateOf(status, d'));
    }
  }

  lemma CameNoFurther(m: Vm, chunks: seq<seq<byte>>, d0: Data, n: nat, status: Ending, d: Data, moved: int,
                      chunk: seq<byte>)
    requires Came(m, chunks, d0, n, status, d, moved) && !status.Finished?
    ensures Came(m, chunks + [chunk], d0, n, status, d, moved)
  {
    hide Closed, BodiesClosed, Streams;
    if BodiesClosed(m) && AllClosed(chunks + [chunk]) {
      assert forall c :: c in chunks ==> c in chunks + [chunk];
      StreamsStuck(m, chunks, d0, n, FateOf(status, d), chunk);
    }
  }
}
