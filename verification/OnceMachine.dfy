/** Running a command once under asyncio (`async_cmd_raises_once` in munet/base.py): the steps that
    callers take between two awaits. */
module OnceMachine {
  import opened Options

  type Value = string

  type Caller = nat

  /** What is kept for one command: its result, the caller that holds its lock, and the callers
      that wait for the lock. */
  datatype Slot = Slot(done: Option<Value>, holder: Option<Caller>, waiters: set<Caller>)

  const FRESH := Slot(None, None, {})

  /** How a caller goes on after a step: it returns a value, waits for the lock, or awaits the
      execution of the command. */
  datatype Turn = Returns(value: Value) | Waits | Executes

  datatype Stepped = Stepped(slot: Slot, turn: Turn)

  /** From the call to the first await. A free lock that others wait for is not taken. */
  function Begin(s: Slot, i: Caller): Stepped {
    if s.done.Some? then Stepped(s, Returns(s.done.value))
    else if s.holder.None? && s.waiters == {} then Stepped(s.(holder := Some(i)), Executes)
    else Stepped(s.(waiters := s.waiters + {i}), Waits)
  }

  /** From getting the lock, after a wait, to the next await. */
  function Resume(s: Slot, i: Caller): Stepped {
    var t := s.(waiters := s.waiters - {i});
    if s.done.Some? then Stepped(t, Returns(s.done.value))
    else Stepped(t.(holder := Some(i)), Executes)
  }

  /** From the successful end of the execution to the return. */
  function Succeed(s: Slot, v: Value): Slot {
    s.(done := Some(v), holder := None)
  }

  /** The execution raised, or the caller was cancelled while it was awaited. */
  function Fail(s: Slot): Slot {
    s.(holder := None)
  }

  /** The caller was cancelled while it waited for the lock. */
  function GiveUp(s: Slot, i: Caller): Slot {
    s.(waiters := s.waiters - {i})
  }
}
