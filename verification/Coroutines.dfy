/**
  Programs of awaiting coroutines. A program is evaluated by rethrowing at every await, and run by a machine whose
  frames hand control over as the task and channel promises do. The machine computes what evaluation says.
 */
module Coroutines {
  import opened Lists
  import opened Promises

  /** What a coroutine has received from its awaits so far; it may decide and compute anything from that. */
  type Locals = seq<Result>

  datatype Body =
    | Return(value: Locals -> Value)
    | Throw(error: Locals -> Error)
    | Branch(test: Locals -> bool, yes: Body, no: Body)
    | Await(child: Body, next: Body)         // co_await task
    | AwaitWrapped(child: Body, next: Body)  // co_await task.wrapped()
    | Yield(item: Locals -> Value, next: Body)

  /** Only the body of a channel may yield. */
  predicate IsTask(b: Body) {
    match b
    case Return(_) => true
    case Throw(_) => true
    case Branch(_, yes, no) => IsTask(yes) && IsTask(no)
    case Await(child, next) => IsTask(child) && IsTask(next)
    case AwaitWrapped(child, next) => IsTask(child) && IsTask(next)
    case Yield(_, _) => false
  }

  predicate IsChannel(b: Body) {
    match b
    case Return(_) => true
    case Throw(_) => true
    case Branch(_, yes, no) => IsChannel(yes) && IsChannel(no)
    case Await(child, next) => IsTask(child) && IsChannel(next)
    case AwaitWrapped(child, next) => IsTask(child) && IsChannel(next)
    case Yield(_, next) => IsChannel(next)
  }

  // ---------------------------------------------------------------- evaluation: rethrow at every await

  /** The result of a task: an error of an awaited task ends the task that awaits it. */
  function Eval(b: Body, l: Locals): Result
    requires IsTask(b)
  {
    match b
    case Return(value) => Ok(value(l))
    case Throw(error) => Err(error(l))
    case Branch(test, yes, no) => if test(l) then Eval(yes, l) else Eval(no, l)
    case Await(child, next) =>
      (match Eval(child, l)
       case Ok(v) => Eval(next, l + [Ok(v)])
       case Err(e) => Err(e))
    case AwaitWrapped(child, next) => Eval(next, l + [Eval(child, l)])
  }

  /** What a channel yields, and the error it ends with, if any. */
  function Items(b: Body, l: Locals): (r: (seq<Value>, Option<Error>))
    requires IsChannel(b)
  {
    match b
    case Return(_) => ([], None)
    case Throw(error) => ([], Some(error(l)))
    case Branch(test, yes, no) => if test(l) then Items(yes, l) else Items(no, l)
    case Await(child, next) =>
      (match Eval(child, l)
       case Ok(v) => Items(next, l + [Ok(v)])
       case Err(e) => ([], Some(e)))
    case AwaitWrapped(child, next) => Items(next, l + [Eval(child, l)])
    case Yield(item, next) => var rest := Items(next, l); ([item(l)] + rest.0, rest.1)
  }

  // ---------------------------------------------------------------- the machine

  /** The suspended or running body of a frame: `awaited` is the frame whose result the next resumption reads. */
  datatype Activation = Activation(body: Body, locals: Locals, awaited: Option<nat>)

  /** Frame 0 is the plain coroutine that started everything; `hasItem` is the channel's `_value_ptr != nullptr`. */
  datatype State = State(promises: seq<Promise>, frames: seq<Activation>, hasItem: bool, running: nat)

  ghost predicate Running(s: State) {
    |s.promises| == |s.frames| && 0 < s.running < |s.frames| && Linked(s.promises, s.running)
  }

  function Resume(s: State, a: Activation): State
    requires s.running < |s.frames|
  {
    s.(frames := s.frames[s.running := a])
  }

  /** `await_suspend`: a new frame awaited by the running one starts. */
  function Call(s: State, child: Body, propagating: bool): State
    requires s.running < |s.promises| == |s.frames|
  {
    var r := s.running;
    var promise := SetContinuation(Promise(Task, 0, false, true, None), r, propagating, s.promises[r]);
    s.(promises := s.promises + [promise],
       frames := s.frames[r := s.frames[r].(awaited := Some(|s.frames|))]
                 + [Activation(child, s.frames[r].locals, None)],
       running := |s.frames|)
  }

  /** `return_value` stores the result, `return_void` of a channel stores nothing; then the final suspend. */
  function Finish(s: State, v: Value): State
    requires s.running < |s.promises|
  {
    var p := s.promises[s.running];
    s.(promises := s.promises[s.running := if p.kind.Channel? then p else p.(result := Some(Ok(v)))],
       running := p.continuation)
  }

  function Fail(s: State, e: Error): State
    requires Running(s)
  {
    var qs := Unhandled(s.promises, s.running, e);
    s.(promises := qs, running := qs[s.running].continuation)
  }

  /** `yield_value` and the suspension after it. */
  function Emit(s: State, v: Value): State
    requires s.running < |s.promises|
  {
    var p := s.promises[s.running];
    s.(promises := s.promises[s.running := p.(result := Some(Ok(v)))], hasItem := true, running := p.continuation)
  }

  /** One step of the running frame. Nothing happens while control is with frame 0, or where the code has no meaning. */
  ghost function Step(s: State): State {
    if !Running(s) then s
    else
      var a := s.frames[s.running];
      match a.awaited
      case None =>
        (match a.body
         case Return(value) => Finish(s, value(a.locals))
         case Throw(error) => Fail(s, error(a.locals))
         case Branch(test, yes, no) => Resume(s, a.(body := if test(a.locals) then yes else no))
         case Await(child, _) => Call(s, child, true)
         case AwaitWrapped(child, _) => Call(s, child, false)
         case Yield(item, next) => Emit(Resume(s, a.(body := next)), item(a.locals)))
      case Some(child) =>
        if child >= |s.promises| || s.promises[child].result.None? then s
        else
          var result := s.promises[child].result.value;
          match a.body
          case Await(_, next) =>
            (match result
             case Ok(v) => Resume(s, Activation(next, a.locals + [Ok(v)], None))
             case Err(e) => Fail(Resume(s, a.(awaited := None)), e))
          case AwaitWrapped(_, next) => Resume(s, Activation(next, a.locals + [result], None))
          case _ => s
  }

  ghost function Run(s: State, n: nat): State
    decreases n
  {
    if n == 0 then s else Run(Step(s), n - 1)
  }

  ghost predicate Reaches(s: State, t: State) { exists n: nat :: Run(s, n) == t }

  lemma {:induction false} RunPlus(s: State, n: nat, m: nat)
    ensures Run(s, n + m) == Run(Run(s, n), m)
    decreases n
  {
    if n == 0 {
    } else {
      RunPlus(Step(s), n - 1, m);
    }
  }

  lemma ReachesTransitive(s: State, t: State, u: State)
    requires Reaches(s, t) && Reaches(t, u)
    ensures Reaches(s, u)
  {
    var n: nat :| Run(s, n) == t;
    var m: nat :| Run(t, m) == u;
    RunPlus(s, n, m);
  }

  lemma ReachesStep(s: State)
    ensures Reaches(s, s) && Reaches(s, Step(s))
  {
    assert Run(s, 0) == s;
    assert Run(s, 1) == Step(s);
  }

  // ---------------------------------------------------------------- running a task

  /** The frame that awaits the running one with a propagating await will read its result. */
  ghost predicate Awaited(s: State)
    requires Running(s)
  {
    var p := s.promises[s.running];
    p.canPropagate ==> s.frames[p.continuation].awaited == Some(s.running) && s.frames[p.continuation].body.Await?
  }

  ghost predicate About(s: State, b: Body, l: Locals) {
    Running(s) && Awaited(s) && s.frames[s.running] == Activation(b, l, None)
  }

  /** Frame `j` is as it was. */
  ghost predicate Same(s: State, t: State, j: nat) {
    && j < |s.promises| == |s.frames| && j < |t.promises| == |t.frames|
    && s.promises[j] == t.promises[j] && s.frames[j] == t.frames[j]
  }

  /** The running frame ended: with a value its awaiter continues, with an error the first plain awaiter does. */
  ghost predicate Ended(s: State, t: State, result: Result) {
    var r := s.running;
    && Running(s)
    && |t.promises| == |t.frames| >= |s.frames| && t.hasItem == s.hasItem
    && match result
       case Ok(v) =>
         && t.running == s.promises[r].continuation
         && t.promises[r] == s.promises[r].(result := Some(Ok(v)))
         && (forall j: nat | j < |s.promises| && j != r :: Same(s, t, j))
       case Err(e) =>
         var o := Outermost(s.promises, r);
         && t.running == Awaiter(s.promises, r)
         && t.promises[o] == s.promises[o].(result := Some(Err(e)))
         && (forall j: nat | j < |s.promises| && !Between(s.promises, r, j) :: Same(s, t, j))
  }

  /** The chain above a frame depends on the older promises only. */
  lemma {:induction false} LinkedByOlder(ps: seq<Promise>, qs: seq<Promise>, i: nat)
    requires Linked(ps, i) && i < |qs| && forall j :: 0 <= j <= i ==> ps[j] == qs[j]
    ensures Linked(qs, i) && Outermost(qs, i) == Outermost(ps, i) && Awaiter(qs, i) == Awaiter(ps, i)
    ensures forall j :: Between(qs, i, j) <==> Between(ps, i, j)
    decreases i
  {
    if !ps[i].canPropagate {
    } else {
      LinkedByOlder(ps, qs, ps[i].continuation);
    }
  }

  lemma {:induction false} BetweenOlder(ps: seq<Promise>, i: nat, j: nat)
    requires Linked(ps, i) && Between(ps, i, j)
    ensures j <= i
    decreases i
  {
    if j == i {
    } else {
      BetweenOlder(ps, ps[i].continuation, j);
    }
  }

  /** An error in the running frame, thrown by its body or by its await. */
  lemma FailEnds(s: State, e: Error)
    requires Running(s) && Awaited(s)
    ensures exists t :: Reaches(Fail(s, e), t) && Ended(s, t, Err(e))
  {
    var r := s.running;
    var t := Fail(s, e);
    ShortCircuit(s.promises, r, e);
    OutermostBetween(s.promises, r);
    ReachesStep(t);
    if s.promises[r].canPropagate && NeedRethrow(s.promises[s.promises[r].continuation]) {
      var u := Step(t);
      ShortCircuit(t.promises, t.running, e);
      assert Ended(s, u, Err(e));
    } else {
      assert Ended(s, t, Err(e));
    }
  }

  /** A call leaves the older frames alone and makes a frame whose chain goes on with the caller's. */
  lemma CallLinks(s: State, child: Body, propagating: bool)
    requires Running(s) && s.frames[s.running].awaited == None
    requires if propagating then s.frames[s.running].body.Await? else s.frames[s.running].body.AwaitWrapped?
    ensures var t := Call(s, child, propagating);
            && About(t, child, s.frames[s.running].locals)
            && t.promises[t.running].kind.Task?
            && t.running == |s.frames|
            && (forall j: nat | j < |s.promises| && j != s.running :: Same(s, t, j))
            && t.promises[s.running] == s.promises[s.running]
            && t.frames[s.running] == s.frames[s.running].(awaited := Some(t.running))
    ensures propagating ==>
              var t := Call(s, child, true);
              && Outermost(t.promises, t.running) == Outermost(s.promises, s.running)
              && Awaiter(t.promises, t.running) == Awaiter(s.promises, s.running)
              && forall j :: Between(t.promises, t.running, j) <==> j == t.running || Between(s.promises, s.running, j)
    ensures !propagating ==>
              var t := Call(s, child, false);
              && Outermost(t.promises, t.running) == t.running
              && Awaiter(t.promises, t.running) == s.running
              && forall j :: Between(t.promises, t.running, j) <==> j == t.running
  {
    LinkedByOlder(s.promises, Call(s, child, propagating).promises, s.running);
  }

  function NextOf(b: Body): Body {
    if b.Await? || b.AwaitWrapped? then b.next else b
  }

  /** What one await does to the frame that made it. */
  ghost predicate AwaitDone(s: State, u: State, result: Result) {
    && Running(s)
    && About(u, NextOf(s.frames[s.running].body), s.frames[s.running].locals + [result])
    && u.running == s.running && u.hasItem == s.hasItem && |u.frames| >= |s.frames|
    && u.promises[u.running] == s.promises[s.running]
    && forall j: nat | j < |s.promises| && j != s.running :: Same(s, u, j)
  }

  /** When the awaited task ends with a value, or is awaited for its result, the caller goes on. */
  lemma AwaitContinues(s: State, b: Body, l: Locals, t: State, result: Result)
    requires About(s, b, l) && (b.AwaitWrapped? || (b.Await? && result.Ok?))
    requires Ended(Call(s, b.child, b.Await?), t, result)
    ensures AwaitDone(s, Step(t), result)
  {
    var c := Call(s, b.child, b.Await?);
    CallLinks(s, b.child, b.Await?);
    forall j: nat | j < |s.promises| ensures Same(c, t, j) {
    }
    assert Same(c, t, s.running);
    forall j: nat | j < |s.promises| ensures t.promises[j] == s.promises[j] {
      assert Same(c, t, j);
      assert j != s.running ==> Same(s, c, j);
    }
    LinkedByOlder(s.promises, t.promises, s.running);
    forall j: nat | j < |s.promises| && j != s.running ensures Same(s, Step(t), j) {
      assert Same(c, t, j) && Same(s, c, j);
    }
    assert Same(s, Step(t), s.promises[s.running].continuation);
  }

  /** The rest of the body after an await ends the frame as it was when the await began. */
  lemma EndsAfterAwait(s: State, u: State, t: State, awaited: Result, result: Result)
    requires AwaitDone(s, u, awaited) && Ended(u, t, result)
    ensures Ended(s, t, result)
  {
    forall j: nat | j <= s.running ensures u.promises[j] == s.promises[j] {
      assert j != s.running ==> Same(s, u, j);
    }
    LinkedByOlder(u.promises, s.promises, s.running);
    OutermostBetween(s.promises, s.running);
    forall j: nat | j < |s.promises| && j != s.running && Same(u, t, j) ensures Same(s, t, j) {
      assert Same(s, u, j);
    }
  }

  lemma EndsAfterBranch(s: State, t: State, result: Result)
    requires Running(s) && s.frames[s.running].awaited == None && s.frames[s.running].body.Branch?
    requires Ended(Step(s), t, result)
    ensures Ended(s, t, result)
  {
    forall j: nat | j < |s.promises| && j != s.running && Same(Step(s), t, j) ensures Same(s, t, j) {
    }
    OutermostBetween(s.promises, s.running);
  }

  /** An error in an awaited task is an error in the frame that awaits it. */
  lemma ErrorPassesAwait(s: State, b: Body, l: Locals, t: State, e: Error)
    requires About(s, b, l) && b.Await?
    requires Ended(Call(s, b.child, true), t, Err(e))
    ensures Ended(s, t, Err(e))
  {
    CallLinks(s, b.child, true);
    OutermostBetween(s.promises, s.running);
  }

  /** A running task ends with the result that evaluation gives. */
  lemma {:induction false} TaskEnds(s: State, b: Body, l: Locals)
    requires About(s, b, l) && s.promises[s.running].kind.Task? && IsTask(b)
    ensures exists t :: Reaches(s, t) && Ended(s, t, Eval(b, l))
    decreases b
  {
    ReachesStep(s);
    match b
    case Return(value) =>
      assert Ended(s, Step(s), Ok(value(l)));
    case Throw(error) =>
      FailEnds(s, error(l));
      var t :| Reaches(Step(s), t) && Ended(s, t, Err(error(l)));
      ReachesTransitive(s, Step(s), t);
    case Branch(test, yes, no) =>
      var rest := if test(l) then yes else no;
      TaskEnds(Step(s), rest, l);
      var t :| Reaches(Step(s), t) && Ended(Step(s), t, Eval(b, l));
      ReachesTransitive(s, Step(s), t);
      EndsAfterBranch(s, t, Eval(b, l));
    case Await(child, next) =>
      var t := ChildEnds(s, b, l);
      match Eval(child, l) {
        case Ok(v) =>
          AwaitThenRest(s, b, l, t, Ok(v));
        case Err(e) =>
          ErrorPassesAwait(s, b, l, t, e);
      }
    case AwaitWrapped(child, next) =>
      var t := ChildEnds(s, b, l);
      AwaitThenRest(s, b, l, t, Eval(child, l));
  }

  lemma {:induction false} ChildEnds(s: State, b: Body, l: Locals) returns (t: State)
    requires About(s, b, l) && (b.Await? || b.AwaitWrapped?) && IsTask(b.child)
    ensures Reaches(s, t) && Ended(Call(s, b.child, b.Await?), t, Eval(b.child, l))
    decreases b, 0
  {
    ReachesStep(s);
    CallLinks(s, b.child, b.Await?);
    TaskEnds(Step(s), b.child, l);
    t :| Reaches(Step(s), t) && Ended(Step(s), t, Eval(b.child, l));
    ReachesTransitive(s, Step(s), t);
  }

  lemma {:induction false} AwaitThenRest(s: State, b: Body, l: Locals, t: State, result: Result)
    requires About(s, b, l) && s.promises[s.running].kind.Task? && IsTask(b)
    requires b.AwaitWrapped? || (b.Await? && result.Ok?)
    requires Reaches(s, t) && Ended(Call(s, b.child, b.Await?), t, result)
    ensures exists u :: Reaches(s, u) && Ended(s, u, Eval(b.next, l + [result]))
    decreases b, 0
  {
    AwaitContinues(s, b, l, t, result);
    ReachesStep(t);
    ReachesTransitive(s, t, Step(t));
    TaskEnds(Step(t), b.next, l + [result]);
    var u :| Reaches(Step(t), u) && Ended(Step(t), u, Eval(b.next, l + [result]));
    ReachesTransitive(s, Step(t), u);
    EndsAfterAwait(s, Step(t), u, result, Eval(b.next, l + [result]));
  }

  // ---------------------------------------------------------------- a whole program

  /** A plain coroutine awaits the task. */
  function Start(b: Body): State {
    Call(State([Promise(Plain, 0, false, true, None)], [Activation(Return(l => 0), [], None)], false, 0), b, false)
  }

  /**
    For every program of tasks, the plain awaiter is resumed with exactly the result of evaluating the program, in
    which every await rethrows, although the machine skips the frames an error passes through.
   */
  lemma TaskRuns(b: Body)
    requires IsTask(b)
    ensures exists t :: Reaches(Start(b), t) && t.running == 0 < |t.promises| - 1 && t.promises[1].result == Some(Eval(b, []))
  {
    var s := Start(b);
    TaskEnds(s, b, []);
    var t :| Reaches(s, t) && Ended(s, t, Eval(b, []));
    assert Outermost(s.promises, 1) == 1;
  }

  /** Control never leaves the plain coroutine by itself, so whatever state it is resumed in is the only one. */
  lemma {:induction false} StaysHome(s: State, n: nat)
    requires s.running == 0
    ensures Run(s, n) == s
    decreases n
  {
    if n == 0 {
    } else {
      StaysHome(Step(s), n - 1);
    }
  }

  lemma HomeOnce(s: State, t: State, u: State)
    requires Reaches(s, t) && Reaches(s, u) && t.running == u.running == 0
    ensures t == u
  {
    var n: nat :| Run(s, n) == t;
    var m: nat :| Run(s, m) == u;
    if n <= m {
      RunPlus(s, n, m - n);
      StaysHome(t, m - n);
    } else {
      RunPlus(s, m, n - m);
      StaysHome(u, n - m);
    }
  }

  // ---------------------------------------------------------------- running a channel

  /** A channel awaited by a plain coroutine ran until it yielded or ended. */
  ghost predicate Paused(s: State, t: State, items: (seq<Value>, Option<Error>)) {
    var r := s.running;
    && Running(s) && r < |t.promises| == |t.frames|
    && t.running == s.promises[r].continuation
    && t.promises[r] == s.promises[r].(result := t.promises[r].result)
    && (forall j: nat | j < r :: Same(s, t, j))
    && if items.0 == [] then
         && t.hasItem == s.hasItem
         && t.promises[r].result == (match items.1 case None => s.promises[r].result case Some(e) => Some(Err(e)))
       else
         && t.hasItem && t.promises[r].result == Some(Ok(items.0[0]))
         && t.frames[r].awaited == None && IsChannel(t.frames[r].body)
         && Items(t.frames[r].body, t.frames[r].locals) == (items.0[1..], items.1)
  }

  lemma PausedAfter(s: State, u: State, t: State, items: (seq<Value>, Option<Error>))
    requires Running(s) && Paused(u, t, items) && u.running == s.running && u.hasItem == s.hasItem
    requires u.promises[u.running] == s.promises[s.running]
    requires forall j: nat | j < s.running :: Same(s, u, j)
    ensures Paused(s, t, items)
  {
    forall j: nat | j < s.running ensures Same(s, t, j) {
      assert Same(s, u, j) && Same(u, t, j);
    }
  }

  /** A channel runs to its next item, or to its end with the error that evaluation gives. */
  lemma {:induction false} ChannelPauses(s: State, b: Body, l: Locals)
    requires About(s, b, l) && IsChannel(b)
    requires s.promises[s.running].kind.Channel? && !s.promises[s.running].canPropagate
    ensures exists t :: Reaches(s, t) && Paused(s, t, Items(b, l))
    decreases b
  {
    ReachesStep(s);
    match b
    case Return(value) =>
      assert Paused(s, Step(s), Items(b, l));
    case Throw(error) =>
      assert Paused(s, Step(s), Items(b, l));
    case Branch(test, yes, no) =>
      ChannelPauses(Step(s), if test(l) then yes else no, l);
      var t :| Reaches(Step(s), t) && Paused(Step(s), t, Items(b, l));
      ReachesTransitive(s, Step(s), t);
      PausedAfter(s, Step(s), t, Items(b, l));
    case Await(child, next) =>
      var t := ChildEnds(s, b, l);
      match Eval(child, l) {
        case Ok(v) =>
          AwaitThenPause(s, b, l, t, Ok(v));
        case Err(e) =>
          ErrorPassesAwait(s, b, l, t, e);
          assert Paused(s, t, Items(b, l));
      }
    case AwaitWrapped(child, next) =>
      var t := ChildEnds(s, b, l);
      AwaitThenPause(s, b, l, t, Eval(child, l));
    case Yield(item, next) =>
      assert Paused(s, Step(s), Items(b, l));
  }

  lemma {:induction false} AwaitThenPause(s: State, b: Body, l: Locals, t: State, result: Result)
    requires About(s, b, l) && IsChannel(b)
    requires s.promises[s.running].kind.Channel? && !s.promises[s.running].canPropagate
    requires b.AwaitWrapped? || (b.Await? && result.Ok?)
    requires Reaches(s, t) && Ended(Call(s, b.child, b.Await?), t, result)
    ensures exists u :: Reaches(s, u) && Paused(s, u, Items(b.next, l + [result]))
    decreases b, 0
  {
    AwaitContinues(s, b, l, t, result);
    ReachesStep(t);
    ReachesTransitive(s, t, Step(t));
    ChannelPauses(Step(t), b.next, l + [result]);
    var u :| Reaches(Step(t), u) && Paused(Step(t), u, Items(b.next, l + [result]));
    ReachesTransitive(s, Step(t), u);
    PausedAfter(s, Step(t), u, Items(b.next, l + [result]));
  }

  // ---------------------------------------------------------------- a consumer loop

  /** `ChannelAdvanceOp::await_suspend` of the plain coroutine, or None when it throws the stored error. */
  function Advance(s: State): Option<State>
    requires |s.promises| > 1
  {
    var p := s.promises[1];
    if p.result.Some? && p.result.value.Err? then None
    else Some(s.(promises := s.promises[1 := SetContinuation(p, 0, false, s.promises[0])], hasItem := false, running := 1))
  }

  /** `Channel::result()`: the stored error, if any. */
  function ChannelResult(s: State): Option<Error>
    requires |s.promises| > 1
  {
    match s.promises[1].result
    case Some(Err(e)) => Some(e)
    case _ => None
  }

  /** `for co_await` over the channel, from `begin()` or `++`: it sees `seen` and stops in `t`. */
  ghost predicate Loop(s: State, seen: seq<Value>, t: State)
    requires |s.promises| > 1
    decreases |seen|
  {
    Advance(s).Some? &&
    exists u: State ::
      && Reaches(Advance(s).value, u) && u.running == 0 && |u.promises| > 1
      && if u.hasItem then
           seen != [] && u.promises[1].result == Some(Ok(seen[0])) && Loop(u, seen[1..], t)
         else seen == [] && u == t
  }

  /** A channel that was created and not started yet. */
  function Open(b: Body): State {
    State([Promise(Plain, 0, false, true, None), Promise(Channel, 0, false, true, None)],
          [Activation(Return(l => 0), [], None), Activation(b, [], None)], false, 0)
  }

  /** The consumer is about to advance the channel, whose remaining body is `b`. */
  ghost predicate AtLoop(s: State, b: Body, l: Locals) {
    && s.running == 0 && 1 < |s.promises| == |s.frames|
    && s.promises[1].kind.Channel? && !(s.promises[1].result.Some? && s.promises[1].result.value.Err?)
    && s.frames[1] == Activation(b, l, None)
  }

  lemma {:induction false} LoopSeesItems(s: State, b: Body, l: Locals) returns (t: State)
    requires AtLoop(s, b, l) && IsChannel(b)
    ensures Loop(s, Items(b, l).0, t)
    ensures |t.promises| > 1 && ChannelResult(t) == Items(b, l).1
    decreases |Items(b, l).0|
  {
    var items := Items(b, l);
    var a := Advance(s).value;
    ChannelPauses(a, b, l);
    var u :| Reaches(a, u) && Paused(a, u, items);
    if items.0 == [] {
      t := u;
    } else {
      t := LoopSeesItems(u, u.frames[1].body, u.frames[1].locals);
    }
  }

  /** The loop is deterministic. */
  lemma {:induction false} LoopOnce(s: State, seen: seq<Value>, t: State, other: seq<Value>, u: State)
    requires |s.promises| > 1 && Loop(s, seen, t) && Loop(s, other, u)
    ensures seen == other && t == u
    decreases |seen|
  {
    var a := Advance(s).value;
    var v: State :|
      && Reaches(a, v) && v.running == 0 && |v.promises| > 1
      && if v.hasItem then seen != [] && v.promises[1].result == Some(Ok(seen[0])) && Loop(v, seen[1..], t)
         else seen == [] && v == t;
    var w: State :|
      && Reaches(a, w) && w.running == 0 && |w.promises| > 1
      && if w.hasItem then other != [] && w.promises[1].result == Some(Ok(other[0])) && Loop(w, other[1..], u)
         else other == [] && w == u;
    HomeOnce(a, v, w);
    if !v.hasItem {
    } else {
      LoopOnce(v, seen[1..], t, other[1..], u);
      assert seen == [seen[0]] + seen[1..] && other == [other[0]] + other[1..];
    }
  }

  /**
    A plain consumer looping over a channel sees exactly the items that the channel's body yields, in order, and then
    the end; `result()` then holds an error exactly when the body ended by one, its own or an awaited task's, and
    advancing once more throws it.
   */
  lemma ChannelDelivers(b: Body, seen: seq<Value>, t: State)
    requires IsChannel(b) && Loop(Open(b), seen, t)
    ensures seen == Items(b, []).0
    ensures |t.promises| > 1 && ChannelResult(t) == Items(b, []).1
    ensures Advance(t).None? <==> Items(b, []).1.Some?
  {
    var u := LoopSeesItems(Open(b), b, []);
    LoopOnce(Open(b), seen, t, Items(b, []).0, u);
  }

  lemma LoopEnds(b: Body)
    requires IsChannel(b)
    ensures exists t :: Loop(Open(b), Items(b, []).0, t)
  {
    var t := LoopSeesItems(Open(b), b, []);
  }
}
