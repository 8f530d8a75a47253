/** The `cmd_once_done` and `cmd_once_locks` of `Commander` in munet/base.py. Each method is the
    part of `async_cmd_raises_once` between two awaits, proved against `OnceMachine`. */
module Commanders {
  import opened Options
  import opened OnceMachine

  /** An asyncio.Lock. */
  datatype Lock = Lock(holder: Option<Caller>, waiters: set<Caller>)

  class Commander {
    var cmdOnceDone: map<string, Value>
    var cmdOnceLocks: map<string, Lock>

    constructor ()
      ensures forall cmd :: SlotOf(cmd) == FRESH
    {
      cmdOnceDone, cmdOnceLocks := map[], map[];
    }

    ghost function SlotOf(cmd: string): Slot
      reads this
    {
      var done := if cmd in cmdOnceDone then Some(cmdOnceDone[cmd]) else None;
      if cmd in cmdOnceLocks then Slot(done, cmdOnceLocks[cmd].holder, cmdOnceLocks[cmd].waiters)
      else Slot(done, None, {})
    }

    /** Only this command's slot changed. */
    twostate predicate Only(cmd: string)
      reads this
    {
      forall c :: c != cmd ==> SlotOf(c) == old(SlotOf(c))
    }

    method Begin(cmd: string, i: Caller) returns (turn: Turn)
      modifies this
      ensures Stepped(SlotOf(cmd), turn) == OnceMachine.Begin(old(SlotOf(cmd)), i) && Only(cmd)
    {
      if cmd in cmdOnceDone {
        return Returns(cmdOnceDone[cmd]);
      }
      if cmd !in cmdOnceLocks {
        cmdOnceLocks := cmdOnceLocks[cmd := Lock(None, {})];
      }
      var lock := cmdOnceLocks[cmd];
      if lock.holder.Some? || lock.waiters != {} {
        cmdOnceLocks := cmdOnceLocks[cmd := lock.(waiters := lock.waiters + {i})];
        return Waits;
      }
      cmdOnceLocks := cmdOnceLocks[cmd := lock.(holder := Some(i))];
      turn := Executes;
    }

    method Resume(cmd: string, i: Caller) returns (turn: Turn)
      requires i in SlotOf(cmd).waiters && SlotOf(cmd).holder.None?
      modifies this
      ensures Stepped(SlotOf(cmd), turn) == OnceMachine.Resume(old(SlotOf(cmd)), i) && Only(cmd)
    {
      var lock := cmdOnceLocks[cmd];
      lock := Lock(Some(i), lock.waiters - {i});
      if cmd !in cmdOnceDone {
        cmdOnceLocks := cmdOnceLocks[cmd := lock];
        return Executes;
      }
      cmdOnceLocks := cmdOnceLocks[cmd := lock.(holder := None)];
      turn := Returns(cmdOnceDone[cmd]);
    }

    method Succeed(cmd: string, i: Caller, v: Value) returns (r: Value)
      requires SlotOf(cmd).holder == Some(i)
      modifies this
      ensures SlotOf(cmd) == OnceMachine.Succeed(old(SlotOf(cmd)), v) && Only(cmd) && r == v
    {
      cmdOnceDone := cmdOnceDone[cmd := v];
      cmdOnceLocks := cmdOnceLocks[cmd := cmdOnceLocks[cmd].(holder := None)];
      r := cmdOnceDone[cmd];
    }

    method Fail(cmd: string, i: Caller)
      requires SlotOf(cmd).holder == Some(i)
      modifies this`cmdOnceLocks
      ensures SlotOf(cmd) == OnceMachine.Fail(old(SlotOf(cmd))) && Only(cmd)
    {
      cmdOnceLocks := cmdOnceLocks[cmd := cmdOnceLocks[cmd].(holder := None)];
    }

    method GiveUp(cmd: string, i: Caller)
      requires i in SlotOf(cmd).waiters
      modifies this`cmdOnceLocks
      ensures SlotOf(cmd) == OnceMachine.GiveUp(old(SlotOf(cmd)), i) && Only(cmd)
    {
      var lock := cmdOnceLocks[cmd];
      cmdOnceLocks := cmdOnceLocks[cmd := lock.(waiters := lock.waiters - {i})];
    }

    /** `cmd_raises_once`, which blocks: `result` is what the command gives if it is executed,
        None when it raises. */
    method CallBlocking(cmd: string, result: Option<Value>) returns (r: Option<Value>)
      modifies this`cmdOnceDone
      ensures Only(cmd)
      ensures r == if old(SlotOf(cmd)).done.Some? then old(SlotOf(cmd)).done else result
      ensures SlotOf(cmd) == old(SlotOf(cmd)).(done := r)
    {
      if cmd !in cmdOnceDone {
        if result.None? {
          return None;
        }
        cmdOnceDone := cmdOnceDone[cmd := result.value];
      }
      r := Some(cmdOnceDone[cmd]);
    }
  }
}
