/** Any number of callers of `async_cmd_raises_once` for one command, under any interleaving. */
module OnceRuns {
  import opened Options
  import opened OnceMachine

  /** Where a caller is. */
  datatype Pc = Waiting | Executing | Returned(value: Value) | Raised

  /** A step of caller i. `Blocked` is a call of the blocking `cmd_raises_once`; its result is what
      an execution gives. */
  datatype Step =
    | Call(i: Caller)
    | GetLock(i: Caller)
    | Finish(i: Caller, result: Option<Value>)
    | Cancel(i: Caller)
    | Blocked(i: Caller, result: Option<Value>)

  /** `started` counts the executions begun, `failed` those that raised; `successes` are the
      results of the others. `overlapped` says whether an execution was begun during another. */
  datatype World = World(slot: Slot, pcs: map<Caller, Pc>, started: nat, failed: nat, successes: seq<Value>,
                         overlapped: bool)

  const START := World(FRESH, map[], 0, 0, [], false)

  predicate InFlight(w: World) {
    exists i :: i in w.pcs && w.pcs[i] == Executing
  }

  /** Another execution begins. */
  function Started(w: World): World {
    w.(started := w.started + 1, overlapped := w.overlapped || InFlight(w))
  }

  predicate Enabled(w: World, step: Step) {
    match step
    case Call(i) => i !in w.pcs
    case GetLock(i) => i in w.pcs && w.pcs[i] == Waiting && w.slot.holder.None?
    case Finish(i, _) => i in w.pcs && w.pcs[i] == Executing
    case Cancel(i) => i in w.pcs && (w.pcs[i] == Waiting || w.pcs[i] == Executing)
    case Blocked(i, _) => i !in w.pcs
  }

  function GoOn(w: World, i: Caller, s: Stepped): World {
    match s.turn
    case Returns(v) => w.(slot := s.slot, pcs := w.pcs[i := Returned(v)])
    case Waits => w.(slot := s.slot, pcs := w.pcs[i := Waiting])
    case Executes => Started(w).(slot := s.slot, pcs := w.pcs[i := Executing])
  }

  function Stop(w: World, i: Caller): World {
    w.(slot := Fail(w.slot), pcs := w.pcs[i := Raised], failed := w.failed + 1)
  }

  /** A step that is not enabled does nothing. */
  function Next(w: World, step: Step): World {
    if !Enabled(w, step) then
      w
    else
      match step
      case Call(i) => GoOn(w, i, Begin(w.slot, i))
      case GetLock(i) => GoOn(w, i, Resume(w.slot, i))
      case Finish(i, result) =>
        if result.None? then Stop(w, i)
        else w.(slot := Succeed(w.slot, result.value), pcs := w.pcs[i := Returned(result.value)],
                successes := w.successes + [result.value])
      case Cancel(i) =>
        if w.pcs[i] == Executing then Stop(w, i)
        else w.(slot := GiveUp(w.slot, i), pcs := w.pcs[i := Raised])
      case Blocked(i, result) =>
        if w.slot.done.Some? then
          w.(pcs := w.pcs[i := Returned(w.slot.done.value)])
        else if result.None? then
          Started(w).(pcs := w.pcs[i := Raised], failed := w.failed + 1)
        else
          Started(w).(slot := w.slot.(done := result), pcs := w.pcs[i := Returned(result.value)],
                      successes := w.successes + [result.value])
  }

  function RunFrom(w: World, steps: seq<Step>): World {
    if steps == [] then w else Next(RunFrom(w, steps[..|steps| - 1]), steps[|steps| - 1])
  }

  function Run(steps: seq<Step>): World {
    RunFrom(START, steps)
  }

  /** What "run once" means: at most one execution is in flight, and none was begun during another;
      at most one ever succeeded; and all values returned are its result. */
  ghost predicate Once(w: World) {
    && (forall i, j :: i in w.pcs && j in w.pcs && w.pcs[i] == Executing && w.pcs[j] == Executing ==> i == j)
    && !w.overlapped
    && |w.successes| <= 1
    && (forall i :: i in w.pcs && w.pcs[i].Returned? ==> w.successes == [w.pcs[i].value])
    && w.started <= w.failed + 1
  }

  /** Only the lock's holder executes, nobody does once there is a result, the result is the one
      success, and whoever returned returned it. */
  ghost predicate Inv(w: World) {
    && (forall i :: i in w.pcs && w.pcs[i] == Executing <==> w.slot.holder == Some(i))
    && (forall i :: i in w.slot.waiters <==> i in w.pcs && w.pcs[i] == Waiting)
    && (w.slot.done.Some? ==> w.slot.holder.None?)
    && (forall i :: i in w.pcs && w.pcs[i].Returned? ==> w.slot.done == Some(w.pcs[i].value))
    && w.successes == (if w.slot.done.Some? then [w.slot.done.value] else [])
    && w.started == w.failed + |w.successes| + (if w.slot.holder.Some? then 1 else 0)
    && !w.overlapped
  }

  /** A blocking call meets no execution in flight, or a result. */
  predicate Careful(w: World, step: Step) {
    step.Blocked? && Enabled(w, step) ==> w.slot.done.Some? || w.slot.holder.None?
  }

  lemma {:induction false} InvIsOnce(w: World)
    requires Inv(w)
    ensures Once(w) && (InFlight(w) <==> w.slot.holder.Some?)
  {
    if w.slot.holder.Some? {
      assert w.slot.holder.value in w.pcs && w.pcs[w.slot.holder.value] == Executing;
    }
  }

  lemma {:induction false} CallKeeps(w: World, i: Caller)
    requires Inv(w) && i !in w.pcs
    ensures Inv(Next(w, Call(i)))
  {
    InvIsOnce(w);
  }

  lemma {:induction false} GetLockKeeps(w: World, i: Caller)
    requires Inv(w) && Enabled(w, GetLock(i))
    ensures Inv(Next(w, GetLock(i)))
  {
    InvIsOnce(w);
  }

  lemma {:induction false} BlockedKeeps(w: World, i: Caller, result: Option<Value>)
    requires Inv(w) && Enabled(w, Blocked(i, result)) && Careful(w, Blocked(i, result))
    ensures Inv(Next(w, Blocked(i, result)))
  {
    InvIsOnce(w);
  }

  lemma {:induction false} FinishKeeps(w: World, i: Caller, result: Option<Value>)
    requires Inv(w) && Enabled(w, Finish(i, result))
    ensures Inv(Next(w, Finish(i, result)))
  {
  }

  lemma {:induction false} CancelKeeps(w: World, i: Caller)
    requires Inv(w) && Enabled(w, Cancel(i))
    ensures Inv(Next(w, Cancel(i)))
  {
  }

  lemma {:induction false} NextKeeps(w: World, step: Step)
    requires Inv(w) && Careful(w, step)
    ensures Inv(Next(w, step))
  {
    if Enabled(w, step) {
      match step
      case Call(i) => CallKeeps(w, i);
      case GetLock(i) => GetLockKeeps(w, i);
      case Finish(i, result) => FinishKeeps(w, i, result);
      case Cancel(i) => CancelKeeps(w, i);
      case Blocked(i, result) => BlockedKeeps(w, i, result);
    }
  }

  ghost predicate AllCareful(w: World, steps: seq<Step>) {
    forall k :: 0 <= k < |steps| ==> Careful(RunFrom(w, steps[..k]), steps[k])
  }

  lemma {:induction false} RunKeeps(w: World, steps: seq<Step>)
    requires Inv(w) && AllCareful(w, steps)
    ensures Inv(RunFrom(w, steps))
  {
    if steps != [] {
      var init := steps[..|steps| - 1];
      forall k | 0 <= k < |init|
        ensures Careful(RunFrom(w, init[..k]), init[k])
      {
        assert init[..k] == steps[..k];
      }
      RunKeeps(w, init);
      assert steps[..|init|] == init;
      NextKeeps(RunFrom(w, init), steps[|init|]);
    }
  }

  predicate NoBlocking(steps: seq<Step>) {
    forall s :: s in steps ==> !s.Blocked?
  }

  lemma {:induction false} RunsAreCareful(w: World, steps: seq<Step>)
    requires NoBlocking(steps)
    ensures AllCareful(w, steps)
  {
    forall k | 0 <= k < |steps|
      ensures Careful(RunFrom(w, steps[..k]), steps[k])
    {
      assert steps[k] in steps;
    }
  }

  lemma {:induction false} StartInv()
    ensures Inv(START)
  {
  }

  /** Every run of asynchronous callers, and every one whose blocking calls are careful, runs the
      command once. */
  lemma {:induction false} RunOnce(steps: seq<Step>)
    requires NoBlocking(steps) || AllCareful(START, steps)
    ensures Once(Run(steps))
  {
    if NoBlocking(steps) {
      RunsAreCareful(START, steps);
    }
    StartInv();
    RunKeeps(START, steps);
    InvIsOnce(Run(steps));
  }

  /** Nothing is executed after a success. */
  lemma {:induction false} NoExecutionAfterSuccess(steps: seq<Step>, more: seq<Step>)
    requires NoBlocking(steps) && NoBlocking(more) && Run(steps).slot.done.Some?
    ensures var v, w := Run(steps), RunFrom(Run(steps), more);
            w.started == v.started && w.slot.done == v.slot.done
  {
    RunsAreCareful(START, steps);
    StartInv();
    RunKeeps(START, steps);
    NothingMore(Run(steps), more);
  }

  lemma {:induction false} NothingMore(v: World, more: seq<Step>)
    requires Inv(v) && v.slot.done.Some? && NoBlocking(more)
    ensures var w := RunFrom(v, more); w.started == v.started && w.slot.done == v.slot.done
  {
    if more != [] {
      var init := more[..|more| - 1];
      assert more[|init|] in more;
      NothingMore(v, init);
      RunsAreCareful(v, init);
      RunKeeps(v, init);
    }
  }

  /** A waiter never waits in vain: an execution is in flight, or the waiter can get the lock, and
      then it executes the command unless there is a result, which it returns. */
  lemma {:induction false} WaitersGoOn(steps: seq<Step>, i: Caller)
    requires NoBlocking(steps) && i in Run(steps).pcs && Run(steps).pcs[i] == Waiting
    ensures var w := Run(steps);
            w.slot.holder.None? ==>
              && Enabled(w, GetLock(i))
              && Next(w, GetLock(i)).pcs[i] == (if w.slot.done.Some? then Returned(w.slot.done.value) else Executing)
    ensures var w := Run(steps);
            w.slot.holder.Some? ==>
              && Enabled(w, Finish(w.slot.holder.value, None))
              && Enabled(Next(w, Finish(w.slot.holder.value, None)), GetLock(i))
  {
    RunsAreCareful(START, steps);
    StartInv();
    RunKeeps(START, steps);
  }

  /** What a new caller does, as the others see it: it returns the result if there is one, executes at
      once when nobody executes or waits, and otherwise waits; it overtakes nobody. */
  lemma {:induction false} CallerDoes(steps: seq<Step>, i: Caller)
    requires NoBlocking(steps) && i !in Run(steps).pcs
    ensures var w, x := Run(steps), Next(Run(steps), Call(i));
            var busy := exists j :: j in w.pcs && (w.pcs[j] == Executing || w.pcs[j] == Waiting);
            && i in x.pcs && x.pcs == w.pcs[i := x.pcs[i]]
            && x.pcs[i] == (if w.successes != [] then Returned(w.successes[0]) else if busy then Waiting else Executing)
            && (x.started > w.started <==> x.pcs[i] == Executing)
  {
    RunsAreCareful(START, steps);
    StartInv();
    RunKeeps(START, steps);
    var w := Run(steps);
    if w.slot.holder.Some? {
      assert w.slot.holder.value in w.pcs && w.pcs[w.slot.holder.value] == Executing;
    } else if w.slot.waiters != {} {
      var j :| j in w.slot.waiters;
      assert j in w.pcs && w.pcs[j] == Waiting;
    }
  }

  /** A blocking call, successful or not, leaves a state from which every run of asynchronous callers
      runs the command once if and only if the call is careful. */
  lemma {:induction false} BlockingKeepsIff(w: World, i: Caller, result: Option<Value>)
    requires Inv(w) && i !in w.pcs
    ensures Careful(w, Blocked(i, result)) <==>
            forall more :: NoBlocking(more) ==> Once(RunFrom(Next(w, Blocked(i, result)), more))
  {
    var x := Next(w, Blocked(i, result));
    InvIsOnce(w);
    if Careful(w, Blocked(i, result)) {
      BlockedKeeps(w, i, result);
      forall more | NoBlocking(more)
        ensures Once(RunFrom(x, more))
      {
        RunsAreCareful(x, more);
        RunKeeps(x, more);
        InvIsOnce(RunFrom(x, more));
      }
    } else {
      assert x.overlapped && RunFrom(x, []) == x && NoBlocking([]);
    }
  }

  /** A successful blocking call while an execution is in flight: when that succeeds too the command
      has succeeded twice, and the two callers have returned its two results. */
  lemma {:induction false} BlockingCallRunsTwice(w: World, i: Caller, u: Value, v: Value)
    requires Inv(w) && i !in w.pcs && !Careful(w, Blocked(i, Some(u)))
    ensures w.slot.holder.Some? && var h := w.slot.holder.value;
            var x := Next(Next(w, Blocked(i, Some(u))), Finish(h, Some(v)));
            x.successes == [u, v] && i in x.pcs && x.pcs[i] == Returned(u) && h in x.pcs && x.pcs[h] == Returned(v)
  {
    var h := w.slot.holder.value;
    assert h in w.pcs && w.pcs[h] == Executing;
    var y := Next(w, Blocked(i, Some(u)));
    assert Enabled(y, Finish(h, Some(v)));
  }

  /** A run that comes to it. */
  lemma {:induction false} BlockingCallCanOverlap(u: Value)
    ensures !Careful(Run([Call(0)]), Blocked(1, Some(u))) && 1 !in Run([Call(0)]).pcs && NoBlocking([Call(0)])
  {
    assert [Call(0)][..0] == [];
    assert Run([Call(0)]) == Next(START, Call(0));
  }
}
