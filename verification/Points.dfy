/** Every moment of a run at which a script makes a call. */
module Points {
  import opened Scripts
  import opened TestMachine

  /** `file` is the file whose script makes the call, `includes` the number of
      section-creating includes that are running. */
  datatype Point = Point(file: Path, includes: nat, state: State)

  function CmdsPoints(args: Args, cmds: seq<Cmd>, s: State, file: Path, includes: nat): seq<Point>
    requires s.WellFormed()
    decreases cmds
  {
    if cmds == [] then
      []
    else
      var r := ExecCmd(args, cmds[0], s);
      [Point(file, includes, s)]
      + CmdPoints(args, cmds[0], s, includes)
      + (if r.outcome.Done? then CmdsPoints(args, cmds[1..], r.state, file, includes) else [])
  }

  function CmdPoints(args: Args, c: Cmd, s: State, includes: nat): seq<Point>
    requires s.WellFormed()
    decreases c
  {
    match c
    case Include(pathname, script, newSection) =>
      IncludedPoints(args, Join(s.info.path, pathname), script, newSection, s, includes)
    case _ => []
  }

  function IncludedPoints(args: Args, path: Path, script: Script, newSection: bool, s: State, includes: nat): seq<Point>
    requires s.WellFormed()
    decreases script, 1
  {
    ScriptPoints(args, script, Enter(s, path, newSection), newSection, path,
                 includes + if newSection then 1 else 0)
  }

  function ScriptPoints(args: Args, script: Script, s: State, printHeader: bool, file: Path, includes: nat): seq<Point>
    requires s.WellFormed()
    decreases script, 0
  {
    match script
    case Unloadable(_) => []
    case Script(_, body) => CmdsPoints(args, body, Begin(script, s, printHeader), file, includes)
  }
}
