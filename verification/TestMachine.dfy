/** The mutest test case as a function from states to states: what `TestCase` in
    munet/mutest/userapi.py does to its frames, its section flag and its results log. */
module TestMachine {
  import opened Scripts

  /** A dotted number, "1.2.3", as its parts. */
  type Number = seq<nat>

  /** One result frame. */
  datatype Info = Info(tag: Number, path: Path, steps: nat, passed: nat, failed: nat)

  datatype Event =
    | Opened(number: Number)
    | Header(number: Number, text: string)
    | Result(number: Number, success: bool, desc: string)

  datatype State = State(info: Info, saved: seq<Info>, inSection: bool, log: seq<Event>) {
    predicate WellFormed() {
      inSection ==> saved != []
    }

    /** The frame that stays on top once an open section is ended. */
    function Base(): Info
      requires WellFormed()
    {
      if inSection then saved[|saved| - 1] else info
    }

    /** The frames under `Base()`: one per active section-creating include. */
    function Below(): seq<Info>
      requires WellFormed()
    {
      if inSection then saved[..|saved| - 1] else saved
    }
  }

  function PushExecInfo(s: State, path: Path): State {
    var info := s.info.(steps := s.info.steps + 1);
    var tag := info.tag + [info.steps];
    s.(info := Info(tag, path, 0, 0, 0), saved := s.saved + [info], log := s.log + [Opened(tag)])
  }

  function EndSection(s: State): State
    requires s.saved != []
  {
    var n := |s.saved| - 1;
    var parent := s.saved[n];
    var info := parent.(passed := parent.passed + s.info.passed, failed := parent.failed + s.info.failed);
    s.(info := info, saved := s.saved[..n], inSection := false)
  }

  function EndOpenSection(s: State): State
    requires s.WellFormed()
  {
    if s.inSection then EndSection(s) else s
  }

  function StartExecSection(s: State, path: Path): State
    requires s.WellFormed()
  {
    PushExecInfo(EndOpenSection(s), path)
  }

  function PrintHeader(s: State, text: string): State {
    s.(log := s.log + [Header(s.info.tag, text)])
  }

  function StartSection(s: State, title: string): State
    requires s.WellFormed()
  {
    PrintHeader(PushExecInfo(EndOpenSection(s), s.info.path).(inSection := true), title)
  }

  function PostResult(s: State, success: bool, desc: string): State {
    var info := s.info.(steps := s.info.steps + 1,
                        passed := s.info.passed + (if success then 1 else 0),
                        failed := s.info.failed + (if success then 0 else 1));
    s.(info := info, log := s.log + [Result(info.tag + [info.steps], success, desc)])
  }

  function SetPath(s: State, path: Path): State {
    s.(info := s.info.(path := path))
  }

  /** Entering an included file. */
  function Enter(s: State, path: Path, newSection: bool): State
    requires s.WellFormed()
  {
    if newSection then StartExecSection(s, path) else SetPath(s, path)
  }

  /** Coming back from it, to a caller whose path was `home`. */
  function Leave(s: State, home: Path, newSection: bool): State
    requires s.WellFormed()
    requires newSection ==> s.Below() != []
  {
    if newSection then EndSection(EndOpenSection(s)) else SetPath(s, home)
  }

  datatype Run = Run(state: State, outcome: Outcome)

  /** No sequence of calls touches a frame below the base frame or renumbers the base frame. */
  predicate Keeps(s: State, t: State) {
    && s.WellFormed() && t.WellFormed()
    && t.Below() == s.Below()
    && t.Base().tag == s.Base().tag
  }

  function ExecCmds(args: Args, cmds: seq<Cmd>, s: State): (r: Run)
    requires s.WellFormed()
    ensures Keeps(s, r.state)
    decreases cmds
  {
    if cmds == [] then
      Run(s, Done)
    else
      var r := ExecCmd(args, cmds[0], s);
      if r.outcome.Done? then ExecCmds(args, cmds[1..], r.state) else r
  }

  function ExecCmd(args: Args, c: Cmd, s: State): (r: Run)
    requires s.WellFormed()
    ensures Keeps(s, r.state)
    decreases c
  {
    match c
    case Test(success, desc, answers) =>
      Run(PostResult(s, success, desc), ActOnResult(args, success, desc, answers))
    case Match(success, desc, answers) =>
      Run(if desc == "" then s else PostResult(s, success, desc), ActOnResult(args, success, desc, answers))
    case Section(title) =>
      Run(StartSection(s, title), Done)
    case Include(pathname, script, newSection) =>
      Included(args, Join(s.info.path, pathname), script, newSection, s)
    case Raise(fault) =>
      Run(s, Failed(fault))
    case AskCli(desc) =>
      Run(s, Cli(desc))
  }

  function Included(args: Args, path: Path, script: Script, newSection: bool, s: State): (r: Run)
    requires s.WellFormed()
    ensures Keeps(s, r.state)
    decreases script, 1
  {
    var r := ExecScript(args, script, Enter(s, path, newSection), newSection);
    Run(Leave(r.state, s.info.path, newSection), Rethrow(r.outcome))
  }

  /** The state in which the first call of a script is made. */
  function Begin(script: Script, s: State, printHeader: bool): State
    requires script.Script?
  {
    if printHeader then PrintHeader(s, Title(script.doc, s.info.path)) else s
  }

  function ExecScript(args: Args, script: Script, s: State, printHeader: bool): (r: Run)
    requires s.WellFormed()
    ensures Keeps(s, r.state)
    decreases script, 0
  {
    match script
    case Unloadable(cause) => Run(s, Failed(cause))
    case Script(doc, body) => ExecCmds(args, body, Begin(script, s, printHeader))
  }

  /** What `execute` gives back: totals and error, or the exception that escapes. */
  datatype Report = Totals(passed: nat, failed: nat, outcome: Outcome) | Escaped(desc: string)

  function Initial(tag: Number, path: Path): State {
    State(Info(tag, path, 0, 0, 0), [], false, [])
  }

  /** The state in which `execute` leaves the test case, after `__end_test`. */
  function Final(args: Args, script: Script, s: State): State
    requires s.WellFormed()
  {
    EndOpenSection(ExecScript(args, script, s, true).state)
  }

  function Execute(args: Args, script: Script, s: State): Report
    requires s.WellFormed()
  {
    var t := Final(args, script, s);
    match ExecScript(args, script, s, true).outcome
    case Cli(desc) => Escaped(desc)
    case o => Totals(t.info.passed, t.info.failed, o)
  }
}
