/**
  How an error travels through awaiting coroutines. A promise holds the continuation that awaits it and two flags set
  when the await began; an unhandled error walks up the promises that can propagate without resuming any of them.
 */
module Promises {
  import opened Lists

  type Value = int
  type Error = string

  datatype Result = Ok(value: Value) | Err(error: Error)

  /** Coroutines whose promise propagates errors are tasks and channels; every other awaiter is plain. */
  datatype Kind = Plain | Task | Channel

  /** A promise with its `PromiseContinuationHolder`; coroutine handles are positions in a sequence of promises. */
  datatype Promise = Promise(
    kind: Kind,
    continuation: nat,
    canPropagate: bool,
    needRethrow: bool,
    result: Option<Result>)

  /** `need_rethrow()`, which only the promise of a channel overrides. */
  predicate NeedRethrow(p: Promise) { p.kind.Channel? && !p.canPropagate }

  /** `set_continuation`: `propagating` when the awaiting coroutine's promise type takes errors over. */
  function SetContinuation(p: Promise, awaiter: nat, propagating: bool, awaiting: Promise): Promise {
    p.(continuation := awaiter,
       canPropagate := propagating,
       needRethrow := if propagating then NeedRethrow(awaiting) else true)
  }

  /** Every promise up to the first plain awaiter was set by `set_continuation` and awaits from an older frame. */
  predicate Linked(ps: seq<Promise>, i: nat) {
    && 0 < i < |ps|
    && !ps[i].kind.Plain?
    && ps[i].continuation < i
    && if ps[i].canPropagate then
         && Linked(ps, ps[i].continuation)
         && ps[i].needRethrow == NeedRethrow(ps[ps[i].continuation])
       else ps[i].needRethrow
  }

  // ---------------------------------------------------------------- the code

  /** `propagate_error_impl`, the same for tasks and channels: the promises after it and the handle it returns. */
  function Propagate(ps: seq<Promise>, i: nat, e: Error): (r: (seq<Promise>, nat))
    requires Linked(ps, i)
    ensures |r.0| == |ps| && r.1 < i
    ensures forall j :: 0 <= j < |ps| ==> r.0[j] == ps[j].(result := r.0[j].result)
    decreases i
  {
    var (qs, handle) := if ps[i].canPropagate then Propagate(ps, ps[i].continuation, e) else (ps, ps[i].continuation);
    (if ps[i].needRethrow then qs[i := qs[i].(result := Some(Err(e)))] else qs, handle)
  }

  /** `unhandled_exception`: redirect the continuation unless the awaiter has to see the error itself. */
  function Unhandled(ps: seq<Promise>, i: nat, e: Error): (qs: seq<Promise>)
    requires Linked(ps, i)
    ensures |qs| == |ps| && qs[i].continuation < i
  {
    var (qs, handle) := Propagate(ps, i, e);
    if ps[i].canPropagate && !ps[i].needRethrow then qs[i := qs[i].(continuation := handle)] else qs
  }

  // ---------------------------------------------------------------- what it amounts to

  /** The promise awaited by the first awaiter that does not propagate. */
  function Outermost(ps: seq<Promise>, i: nat): (o: nat)
    requires Linked(ps, i)
    ensures o <= i && Linked(ps, o) && !ps[o].canPropagate
    decreases i
  {
    if ps[i].canPropagate then Outermost(ps, ps[i].continuation) else i
  }

  function Awaiter(ps: seq<Promise>, i: nat): (a: nat)
    requires Linked(ps, i)
    ensures a < Outermost(ps, i)
  {
    ps[Outermost(ps, i)].continuation
  }

  /** The promise awaited by the outermost one. */
  function Second(ps: seq<Promise>, i: nat): (s: nat)
    requires Linked(ps, i) && ps[i].canPropagate
    ensures s <= i && Linked(ps, s) && ps[s].canPropagate
    ensures ps[s].continuation == Outermost(ps, i) < s
    decreases i
  {
    if ps[ps[i].continuation].canPropagate then Second(ps, ps[i].continuation) else i
  }

  /** Where an error raised in `i` is stored: in the outermost promise, and in the one below a channel. */
  predicate Stored(ps: seq<Promise>, i: nat, j: nat)
    requires Linked(ps, i)
  {
    || j == Outermost(ps, i)
    || (ps[i].canPropagate && ps[Outermost(ps, i)].kind.Channel? && j == Second(ps, i))
  }

  /** One error, however long the chain: the first plain awaiter is the handle, and nothing else changes. */
  lemma {:induction false} PropagateExact(ps: seq<Promise>, i: nat, e: Error)
    requires Linked(ps, i)
    ensures Propagate(ps, i, e).1 == Awaiter(ps, i)
    ensures forall j :: 0 <= j < |ps| ==>
              Propagate(ps, i, e).0[j] == if Stored(ps, i, j) then ps[j].(result := Some(Err(e))) else ps[j]
    decreases i
  {
    if !ps[i].canPropagate {
    } else {
      PropagateExact(ps, ps[i].continuation, e);
    }
  }

  /**
    After an unhandled error the final suspend of the failing frame resumes the first plain awaiter and no frame in
    between; only a channel that awaits the failing frame directly and is itself awaited by a plain awaiter runs.
   */
  lemma ShortCircuit(ps: seq<Promise>, i: nat, e: Error)
    requires Linked(ps, i)
    ensures var next := Unhandled(ps, i, e)[i].continuation;
            if ps[i].canPropagate && NeedRethrow(ps[ps[i].continuation])
            then next == ps[i].continuation == Outermost(ps, i) && ps[next].kind.Channel?
            else next == Awaiter(ps, i)
    ensures forall j :: 0 <= j < |ps| ==>
              Unhandled(ps, i, e)[j].result == if Stored(ps, i, j) then Some(Err(e)) else ps[j].result
    ensures forall j :: 0 <= j < |ps| && j != i ==>
              Unhandled(ps, i, e)[j] == ps[j].(result := Unhandled(ps, i, e)[j].result)
  {
    PropagateExact(ps, i, e);
  }

  /** When every promise up to the awaiter is a task, the error is stored in the outermost task only. */
  lemma TasksShortCircuit(ps: seq<Promise>, i: nat, e: Error)
    requires Linked(ps, i) && ps[Outermost(ps, i)].kind.Task?
    ensures Unhandled(ps, i, e)[i].continuation == Awaiter(ps, i)
    ensures forall j :: 0 <= j < |ps| ==>
              Unhandled(ps, i, e)[j].result == if j == Outermost(ps, i) then Some(Err(e)) else ps[j].result
  {
    ShortCircuit(ps, i, e);
  }

  // ---------------------------------------------------------------- frame by frame

  /** The frames from the failing one to the one that the first plain awaiter awaits. */
  predicate Between(ps: seq<Promise>, i: nat, j: nat)
    requires Linked(ps, i)
    decreases i
  {
    j == i || (ps[i].canPropagate && Between(ps, ps[i].continuation, j))
  }

  lemma {:induction false} OutermostBetween(ps: seq<Promise>, i: nat)
    requires Linked(ps, i)
    ensures Between(ps, i, Outermost(ps, i))
    ensures ps[i].canPropagate ==> Between(ps, i, Second(ps, i))
    decreases i
  {
    if !ps[i].canPropagate {
    } else {
      OutermostBetween(ps, ps[i].continuation);
    }
  }

  function StoreError(ps: seq<Promise>, i: nat, e: Error): seq<Promise>
    requires i < |ps|
  {
    ps[i := ps[i].(result := Some(Err(e)))]
  }

  /** Storing a result leaves the chain as it is. */
  lemma {:induction false} StoreKeepsChain(ps: seq<Promise>, i: nat, e: Error, k: nat)
    requires i < |ps| && Linked(ps, k)
    ensures Linked(StoreError(ps, i, e), k) && Outermost(StoreError(ps, i, e), k) == Outermost(ps, k)
    ensures forall j :: Between(StoreError(ps, i, e), k, j) <==> Between(ps, k, j)
    decreases k
  {
    if !ps[k].canPropagate {
    } else {
      StoreKeepsChain(ps, i, e, ps[k].continuation);
    }
  }

  /** The promises after rethrowing, the coroutine resumed last, and the frames that ran, the failing one first. */
  datatype Rethrown = Rethrown(promises: seq<Promise>, handle: nat, frames: seq<nat>)

  /** A frame that fails stores the error and resumes its awaiter, whose await throws it again. */
  function Rethrow(ps: seq<Promise>, i: nat, e: Error): (r: Rethrown)
    requires Linked(ps, i)
    ensures |r.promises| == |ps| && forall j | j in r.frames :: j <= i
    decreases i
  {
    var qs := StoreError(ps, i, e);
    var awaiter := ps[i].continuation;
    if ps[i].canPropagate then
      StoreKeepsChain(ps, i, e, awaiter);
      var r := Rethrow(qs, awaiter, e);
      r.(frames := [i] + r.frames)
    else Rethrown(qs, awaiter, [i])
  }

  /** Rethrowing runs every frame in between, and stores the error in each. */
  lemma {:induction false} RethrowRunsAll(ps: seq<Promise>, i: nat, e: Error)
    requires Linked(ps, i)
    ensures Rethrow(ps, i, e).handle == Awaiter(ps, i)
    ensures forall j: nat :: j in Rethrow(ps, i, e).frames <==> Between(ps, i, j)
    ensures forall j :: 0 <= j < |ps| ==>
              Rethrow(ps, i, e).promises[j] == if Between(ps, i, j) then ps[j].(result := Some(Err(e))) else ps[j]
    decreases i
  {
    if !ps[i].canPropagate {
    } else {
      StoreKeepsChain(ps, i, e, ps[i].continuation);
      RethrowRunsAll(StoreError(ps, i, e), ps[i].continuation, e);
    }
  }

  /**
    Short-circuiting refines rethrowing: the same plain awaiter is resumed and finds the same result in the promise it
    awaits. They differ in the results of the frames that rethrowing runs and short-circuiting skips, and only there.
   */
  lemma RefinesRethrow(ps: seq<Promise>, i: nat, e: Error)
    requires Linked(ps, i)
    ensures Propagate(ps, i, e).1 == Rethrow(ps, i, e).handle == Awaiter(ps, i)
    ensures Propagate(ps, i, e).0[Outermost(ps, i)] == Rethrow(ps, i, e).promises[Outermost(ps, i)]
    ensures forall j :: 0 <= j < |ps| && (j in Rethrow(ps, i, e).frames ==> Stored(ps, i, j)) ==>
              Propagate(ps, i, e).0[j] == Rethrow(ps, i, e).promises[j]
    ensures forall j :: 0 <= j < |ps| && Stored(ps, i, j) ==> j in Rethrow(ps, i, e).frames
  {
    PropagateExact(ps, i, e);
    RethrowRunsAll(ps, i, e);
    OutermostBetween(ps, i);
  }

  // ---------------------------------------------------------------- the objects

  /** From the plain awaiter inwards, each coroutine awaited by the one before it. */
  ghost predicate Chain(chain: seq<Coroutine>)
    reads chain
  {
    && |chain| > 0
    && Distinct(chain)
    && forall j :: 0 < j < |chain| ==> chain[j].continuation == chain[j - 1]
  }

  ghost function View(chain: seq<Coroutine>): (ps: seq<Promise>)
    reads chain
    ensures |ps| == |chain|
  {
    seq(|chain|, j requires 0 <= j < |chain| reads chain =>
      Promise(chain[j].kind, if j == 0 then 0 else j - 1, chain[j].canPropagate, chain[j].needRethrow, chain[j].result))
  }

  lemma {:induction false} LinkedExtends(ps: seq<Promise>, p: Promise, i: nat)
    requires i < |ps|
    requires i > 0 ==> Linked(ps, i)
    ensures i > 0 ==> Linked(ps + [p], i)
    decreases i
  {
    if i == 0 || !ps[i].canPropagate || ps[i].continuation == 0 {
    } else {
      LinkedExtends(ps, p, ps[i].continuation);
    }
  }

  /** A coroutine's promise as an object, awaited through a handle. */
  class Coroutine {
    const kind: Kind
    var continuation: Coroutine?
    var canPropagate: bool
    var needRethrow: bool
    var result: Option<Result>

    constructor (kind: Kind)
      ensures this.kind == kind && continuation == null && !canPropagate && needRethrow && result == None
    {
      this.kind := kind;
      continuation, canPropagate, needRethrow, result := null, false, true, None;
    }

    method NeedsRethrow() returns (r: bool)
      ensures r <==> kind.Channel? && !canPropagate
    {
      r := kind.Channel? && !canPropagate;
    }

    /** Awaiting lengthens the chain by one linked promise. */
    method SetContinuation(awaiter: Coroutine, propagating: bool, ghost chain: seq<Coroutine>)
      requires Chain(chain) && this !in chain && awaiter == chain[|chain| - 1]
      requires !kind.Plain?
      requires propagating <==> |chain| > 1
      requires |chain| > 1 ==> Linked(View(chain), |chain| - 1)
      modifies this`continuation, this`canPropagate, this`needRethrow
      ensures Chain(chain + [this]) && Linked(View(chain + [this]), |chain|)
      ensures View(chain) == old(View(chain))
      ensures View(chain + [this])[|chain|].result == result
    {
      continuation := awaiter;
      canPropagate := propagating;
      if propagating {
        needRethrow := awaiter.NeedsRethrow();
      } else {
        needRethrow := true;
      }
      ghost var longer := chain + [this];
      assert View(longer) == View(chain) + [View(longer)[|chain|]];
      LinkedExtends(View(chain), View(longer)[|chain|], |chain| - 1);
    }

    method PropagateErrorImpl(e: Error, ghost chain: seq<Coroutine>, ghost i: nat) returns (handle: Coroutine?)
      requires Chain(chain) && Linked(View(chain), i) && chain[i] == this
      modifies chain`result
      ensures View(chain) == Propagate(old(View(chain)), i, e).0
      ensures handle == chain[Propagate(old(View(chain)), i, e).1]
      decreases i
    {
      if canPropagate {
        handle := continuation.PropagateErrorImpl(e, chain, i - 1);
      } else {
        handle := continuation;
      }
      if needRethrow {
        result := Some(Err(e));
      }
    }

    method UnhandledException(e: Error, ghost chain: seq<Coroutine>, ghost i: nat)
      requires Chain(chain) && Linked(View(chain), i) && chain[i] == this
      modifies chain`result, this`continuation
      ensures forall j :: 0 <= j < |chain| ==> chain[j].result == Unhandled(old(View(chain)), i, e)[j].result
      ensures continuation == chain[Unhandled(old(View(chain)), i, e)[i].continuation]
    {
      var handle := PropagateErrorImpl(e, chain, i);
      if handle != null && canPropagate && !needRethrow {
        continuation := handle;
      }
    }

    /**
      A frame that fails: `unhandled_exception`, then the final suspend hands control to the continuation. That is the
      first plain awaiter, or a channel with a plain awaiter that awaits this frame directly.
     */
    method Fail(e: Error, ghost chain: seq<Coroutine>, ghost i: nat) returns (next: Coroutine?)
      requires Chain(chain) && Linked(View(chain), i) && chain[i] == this
      modifies chain`result, this`continuation
      ensures var ps := old(View(chain));
              next == chain[if ps[i].canPropagate && NeedRethrow(ps[ps[i].continuation]) then ps[i].continuation else Awaiter(ps, i)]
      ensures forall j :: 0 <= j < |chain| ==>
                chain[j].result == if Stored(old(View(chain)), i, j) then Some(Err(e)) else old(View(chain))[j].result
    {
      ShortCircuit(View(chain), i, e);
      UnhandledException(e, chain, i);
      next := continuation;
    }
  }
}
