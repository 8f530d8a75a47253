/** What a script shows and how it ends, read off the script alone; `execute` does just that. */
module ScriptMeaning {
  import opened Scripts
  import opened TestMachine
  import opened Accounting
  import opened Sequences

  /** A line of the results log without its number. */
  datatype Shown = ResultLine(success: bool, desc: string) | HeaderLine(text: string)

  /** The call that ends a script early: how it ends, and how many includes it is inside of. */
  datatype Stop = Through | StoppedBy(ending: Outcome, depth: nat)

  /** How a call that is not an include ends. */
  function Ending(args: Args, c: Cmd): Outcome
    requires !c.Include?
  {
    match c
    case Test(success, desc, answers) => ActOnResult(args, success, desc, answers)
    case Match(success, desc, answers) => ActOnResult(args, success, desc, answers)
    case Section(_) => Done
    case Raise(fault) => Failed(fault)
    case AskCli(desc) => Cli(desc)
  }

  /** Seen from outside of an include. */
  function Deeper(s: Stop): Stop {
    if s.Through? then s else s.(depth := s.depth + 1)
  }

  function StopOf(args: Args, c: Cmd): Stop
    decreases c
  {
    if c.Include? then
      Deeper(ScriptStop(args, c.script))
    else if Ending(args, c).Done? then
      Through
    else
      StoppedBy(Ending(args, c), 0)
  }

  function FirstStop(args: Args, cmds: seq<Cmd>): Stop
    decreases cmds
  {
    if cmds == [] then Through
    else if StopOf(args, cmds[0]).Through? then FirstStop(args, cmds[1..])
    else StopOf(args, cmds[0])
  }

  function ScriptStop(args: Args, script: Script): Stop
    decreases script
  {
    match script
    case Unloadable(cause) => StoppedBy(Failed(cause), 0)
    case Script(_, body) => FirstStop(args, body)
  }

  /** The lines of one call: a test always posts its result, a match only with a description. */
  function Lines(args: Args, c: Cmd): seq<Shown>
    decreases c
  {
    match c
    case Test(success, desc, _) => [ResultLine(success, desc)]
    case Match(success, desc, _) => if desc == "" then [] else [ResultLine(success, desc)]
    case Section(title) => [HeaderLine(title)]
    case Include(pathname, script, newSection) => ScriptLines(args, script, newSection, pathname.name)
    case _ => []
  }

  /** The lines of the calls up to the one that stops them. */
  function AllLines(args: Args, cmds: seq<Cmd>): seq<Shown>
    decreases cmds
  {
    if cmds == [] then []
    else Lines(args, cmds[0]) + if StopOf(args, cmds[0]).Through? then AllLines(args, cmds[1..]) else []
  }

  function ScriptLines(args: Args, script: Script, header: bool, name: string): seq<Shown>
    decreases script
  {
    match script
    case Unloadable(_) => []
    case Script(doc, body) =>
      (if header then [HeaderLine(if doc == "" then "Test from file: " + name else doc)] else []) + AllLines(args, body)
  }

  function Wrapped(fault: Fault, depth: nat): Fault {
    if depth == 0 then fault else ScriptError(Wrapped(fault, depth - 1))
  }

  /** Every include an error crosses wraps it once; the description for the CLI does not cross any. */
  function Ended(s: Stop): Outcome {
    match s
    case Through => Done
    case StoppedBy(ending, depth) =>
      match ending
      case Done => Done
      case Failed(fault) => Failed(Wrapped(fault, depth))
      case Cli(desc) => Cli(if depth == 0 then desc else "")
  }

  function CountResults(lines: seq<Shown>, success: bool): nat {
    if lines == [] then 0
    else (if lines[0].ResultLine? && lines[0].success == success then 1 else 0) + CountResults(lines[1..], success)
  }

  /** What `execute` gives back for a test in the file `name`. */
  function Expected(args: Args, script: Script, name: string): Report {
    var lines := ScriptLines(args, script, true, name);
    var o := Ended(ScriptStop(args, script));
    if o.Cli? then Escaped(o.desc) else Totals(CountResults(lines, true), CountResults(lines, false), o)
  }

  // ---------- the run shows it ----------

  /** The headers and results of a log. */
  function ShownIn(log: seq<Event>): seq<Shown> {
    if log == [] then
      []
    else
      var e := log[|log| - 1];
      ShownIn(log[..|log| - 1])
      + match e
        case Opened(_) => []
        case Header(_, text) => [HeaderLine(text)]
        case Result(_, success, desc) => [ResultLine(success, desc)]
  }

  lemma {:induction false} ShownAppend(log: seq<Event>, e: Event)
    ensures ShownIn(log + [e]) == ShownIn(log)
              + (if e.Opened? then [] else if e.Header? then [HeaderLine(e.text)] else [ResultLine(e.success, e.desc)])
  {
    assert (log + [e])[..|log|] == log;
  }

  /** From the state on, the run showed these lines and ended so. */
  predicate Shows(s: State, r: Run, lines: seq<Shown>, stop: Stop) {
    ShownIn(r.state.log) == ShownIn(s.log) + lines && r.outcome == Ended(stop)
  }

  lemma {:induction false} PushShows(s: State, path: Path)
    requires s.WellFormed()
    ensures ShownIn(PushExecInfo(EndOpenSection(s), path).log) == ShownIn(s.log)
  {
    var t := EndOpenSection(s);
    var tag := t.info.tag + [t.info.steps + 1];
    assert PushExecInfo(t, path).log == s.log + [Opened(tag)];
    ShownAppend(s.log, Opened(tag));
  }

  lemma {:induction false} SectionShows(s: State, title: string)
    requires s.WellFormed()
    ensures ShownIn(StartSection(s, title).log) == ShownIn(s.log) + [HeaderLine(title)]
  {
    PushShows(s, s.info.path);
    var t := PushExecInfo(EndOpenSection(s), s.info.path).(inSection := true);
    assert StartSection(s, title).log == t.log + [Header(t.info.tag, title)];
    ShownAppend(t.log, Header(t.info.tag, title));
  }

  lemma {:induction false} PostShows(s: State, success: bool, desc: string)
    ensures ShownIn(PostResult(s, success, desc).log) == ShownIn(s.log) + [ResultLine(success, desc)]
  {
    var n := s.info.tag + [s.info.steps + 1];
    assert PostResult(s, success, desc).log == s.log + [Result(n, success, desc)];
    ShownAppend(s.log, Result(n, success, desc));
  }

  lemma {:induction false} EndingStays(args: Args, c: Cmd)
    requires !c.Include?
    ensures Ended(StopOf(args, c)) == Ending(args, c)
  {
  }

  /** A call that is not an include. */
  lemma {:induction false} BasicShows(args: Args, c: Cmd, s: State)
    requires s.WellFormed() && !c.Include?
    ensures Shows(s, ExecCmd(args, c, s), Lines(args, c), StopOf(args, c))
  {
    EndingStays(args, c);
    match c
    case Test(success, desc, _) => PostShows(s, success, desc);
    case Match(success, desc, _) => PostShows(s, success, desc);
    case Section(title) => SectionShows(s, title);
    case _ =>
  }

  lemma {:induction false} EndedThrough(s: Stop)
    requires s.StoppedBy? ==> !s.ending.Done?
    ensures Ended(s).Done? <==> s.Through?
  {
  }

  lemma {:induction false} StopsHard(args: Args, c: Cmd)
    ensures var s := StopOf(args, c); s.StoppedBy? ==> !s.ending.Done?
    decreases c
  {
    if c.Include? && c.script.Script? {
      FirstStopsHard(args, c.script.body);
    }
  }

  lemma {:induction false} FirstStopsHard(args: Args, cmds: seq<Cmd>)
    ensures var s := FirstStop(args, cmds); s.StoppedBy? ==> !s.ending.Done?
    decreases cmds
  {
    if cmds != [] {
      StopsHard(args, cmds[0]);
      FirstStopsHard(args, cmds[1..]);
    }
  }

  lemma {:induction false} RethrowEnds(s: Stop)
    ensures Rethrow(Ended(s)) == Ended(Deeper(s))
  {
  }

  lemma {:induction false} CmdsShow(args: Args, cmds: seq<Cmd>, s: State)
    requires s.WellFormed()
    ensures Shows(s, ExecCmds(args, cmds, s), AllLines(args, cmds), FirstStop(args, cmds))
    decreases cmds
  {
    if cmds == [] {
      assert ShownIn(s.log) + [] == ShownIn(s.log);
    } else {
      var r, stop := ExecCmd(args, cmds[0], s), StopOf(args, cmds[0]);
      CmdShows(args, cmds[0], s);
      StopsHard(args, cmds[0]);
      EndedThrough(stop);
      if stop.Through? {
        CmdsShow(args, cmds[1..], r.state);
        Associative(ShownIn(s.log), Lines(args, cmds[0]), AllLines(args, cmds[1..]));
      } else {
        assert Lines(args, cmds[0]) + [] == AllLines(args, cmds);
      }
    }
  }

  lemma {:induction false} CmdShows(args: Args, c: Cmd, s: State)
    requires s.WellFormed()
    ensures Shows(s, ExecCmd(args, c, s), Lines(args, c), StopOf(args, c))
    decreases c
  {
    if c.Include? {
      IncludeShows(args, c.pathname, c.script, c.newSection, s);
    } else {
      BasicShows(args, c, s);
    }
  }

  /** Entering an included file shows nothing; nor does leaving it, which wraps the exception. */
  lemma {:induction false} EnterShows(s: State, path: Path, newSection: bool)
    requires s.WellFormed()
    ensures var t := Enter(s, path, newSection); ShownIn(t.log) == ShownIn(s.log) && t.info.path == path
  {
    if newSection {
      PushShows(s, path);
    }
  }

  lemma {:induction false} LeaveShows(s: State, home: Path, newSection: bool)
    requires s.WellFormed() && (newSection ==> s.Below() != [])
    ensures Leave(s, home, newSection).log == s.log
  {
  }

  lemma {:induction false} AroundShows(s: State, t: State, r: Run, home: Path, newSection: bool,
                                       lines: seq<Shown>, stop: Stop)
    requires r.state.WellFormed() && (newSection ==> r.state.Below() != [])
    requires ShownIn(t.log) == ShownIn(s.log) && Shows(t, r, lines, stop)
    ensures Shows(s, Run(Leave(r.state, home, newSection), Rethrow(r.outcome)), lines, Deeper(stop))
  {
    LeaveShows(r.state, home, newSection);
    RethrowEnds(stop);
  }

  lemma {:induction false} IncludeShows(args: Args, pathname: Pathname, script: Script, newSection: bool, s: State)
    requires s.WellFormed()
    ensures Shows(s, Included(args, Join(s.info.path, pathname), script, newSection, s),
                  ScriptLines(args, script, newSection, pathname.name), Deeper(ScriptStop(args, script)))
    decreases script, 1
  {
    var path := Join(s.info.path, pathname);
    var t := Enter(s, path, newSection);
    EnterShows(s, path, newSection);
    ScriptShows(args, script, t, newSection);
    AroundShows(s, t, ExecScript(args, script, t, newSection), s.info.path, newSection,
                ScriptLines(args, script, newSection, pathname.name), ScriptStop(args, script));
  }

  lemma {:induction false} ScriptShows(args: Args, script: Script, s: State, header: bool)
    requires s.WellFormed()
    ensures Shows(s, ExecScript(args, script, s, header), ScriptLines(args, script, header, s.info.path.name),
                  ScriptStop(args, script))
    decreases script, 0
  {
    match script
    case Unloadable(_) =>
      assert ShownIn(s.log) + [] == ShownIn(s.log);
    case Script(doc, body) =>
      var head := if header then [HeaderLine(if doc == "" then "Test from file: " + s.info.path.name else doc)] else [];
      var t := Begin(script, s, header);
      assert ShownIn(t.log) == ShownIn(s.log) + head by {
        if header {
          ShownAppend(s.log, Header(s.info.tag, Title(doc, s.info.path)));
        }
      }
      CmdsShow(args, body, t);
      Associative(ShownIn(s.log), head, AllLines(args, body));
  }

  lemma {:induction false} CountAppend(lines: seq<Shown>, x: Shown, success: bool)
    ensures CountResults(lines + [x], success)
         == CountResults(lines, success) + if x.ResultLine? && x.success == success then 1 else 0
  {
    if lines != [] {
      ConsAppend(lines, [x]);
      CountAppend(lines[1..], x, success);
    }
  }

  lemma {:induction false} CountShown(log: seq<Event>, success: bool)
    ensures CountResults(ShownIn(log), success) == Posted(log, success)
  {
    if log != [] {
      var init, e := log[..|log| - 1], log[|log| - 1];
      CountShown(init, success);
      assert log == init + [e];
      ShownAppend(init, e);
      if e.Opened? {
        assert ShownIn(init) + [] == ShownIn(init);
      } else {
        CountAppend(ShownIn(init), if e.Header? then HeaderLine(e.text) else ResultLine(e.success, e.desc), success);
      }
    }
  }

  /** A run shows the lines that can be read off its script, in order, and `execute` returns their
      totals and the error, or the CLI exception escapes, as the first call that stops it says. */
  lemma {:induction false} ExecuteIsExpected(args: Args, script: Script, tag: Number, path: Path)
    ensures var s := Initial(tag, path);
            && ShownIn(Final(args, script, s).log) == ScriptLines(args, script, true, path.name)
            && Execute(args, script, s) == Expected(args, script, path.name)
  {
    var s := Initial(tag, path);
    ScriptShows(args, script, s, true);
    var log := Final(args, script, s).log;
    assert log == ExecScript(args, script, s, true).state.log;
    assert ShownIn(s.log) + ScriptLines(args, script, true, path.name) == ScriptLines(args, script, true, path.name);
    RunEndsSound(args, script, tag, path);
    CountShown(log, true);
    CountShown(log, false);
  }
}
