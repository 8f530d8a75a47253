/** An inline include means the same as writing the included calls in its place. */
module Splicing {
  import opened Scripts
  import opened TestMachine
  import opened Sequences

  /** The pathname that names, from an includer's directory, what `p` names from the
      directory of the file the includer reaches as `via`. */
  function Reroot(via: Pathname, p: Pathname): Pathname {
    if p.absolute then p else Pathname(via.absolute, via.dirs + p.dirs, p.name)
  }

  lemma {:induction false} RerootNames(file: Path, via: Pathname, p: Pathname)
    ensures Join(file, Reroot(via, p)) == Join(Join(file, via), p)
  {
  }

  /** The pathname of an includer in its own directory. */
  const HERE := Pathname(false, [], "")

  /** The calls with every inline include, at any depth, replaced by the calls of its script.
      `via` leads from the file the result is for to the file the calls come from. */
  function SpliceCmds(cmds: seq<Cmd>, via: Pathname): seq<Cmd>
    decreases cmds
  {
    if cmds == [] then [] else SpliceCmd(cmds[0], via) + SpliceCmds(cmds[1..], via)
  }

  function SpliceCmd(c: Cmd, via: Pathname): seq<Cmd>
    decreases c
  {
    match c
    case Include(pathname, script, newSection) =>
      if newSection then
        [Include(Reroot(via, pathname), Splice(script), true)]
      else (
        match script
        case Unloadable(cause) => [Raise(cause)]
        case Script(_, body) => SpliceCmds(body, Reroot(via, pathname))
      )
    case _ => [c]
  }

  function Splice(script: Script): Script
    decreases script
  {
    match script
    case Unloadable(_) => script
    case Script(doc, body) => Script(doc, SpliceCmds(body, HERE))
  }

  predicate NoInline(cmds: seq<Cmd>)
    decreases cmds
  {
    cmds == [] || (NoInlineCmd(cmds[0]) && NoInline(cmds[1..]))
  }

  predicate NoInlineCmd(c: Cmd)
    decreases c
  {
    c.Include? ==> c.newSection && (c.script.Script? ==> NoInline(c.script.body))
  }

  lemma {:induction false} NoInlineAppend(a: seq<Cmd>, b: seq<Cmd>)
    requires NoInline(a) && NoInline(b)
    ensures NoInline(a + b)
  {
    if a == [] {
      assert a + b == b;
    } else {
      NoInlineAppend(a[1..], b);
      assert (a + b)[1..] == a[1..] + b;
    }
  }

  lemma {:induction false} SplicedHasNoInline(cmds: seq<Cmd>, via: Pathname)
    ensures NoInline(SpliceCmds(cmds, via))
    decreases cmds
  {
    if cmds != [] {
      SplicedCmdHasNoInline(cmds[0], via);
      SplicedHasNoInline(cmds[1..], via);
      NoInlineAppend(SpliceCmd(cmds[0], via), SpliceCmds(cmds[1..], via));
    }
  }

  lemma {:induction false} SplicedCmdHasNoInline(c: Cmd, via: Pathname)
    ensures NoInline(SpliceCmd(c, via))
    decreases c
  {
    if c.Include? && c.script.Script? {
      SplicedHasNoInline(c.script.body, if c.newSection then HERE else Reroot(via, c.pathname));
    }
    if !(c.Include? && !c.newSection && c.script.Script?) {
      var d := SpliceCmd(c, via)[0];
      assert SpliceCmd(c, via) == [d] && NoInlineCmd(d) && NoInline([d][1..]);
    }
  }

  /** The files the section-creating includes name, in order, each include read from the
      directory of the file it is written in. */
  function Opens(cmds: seq<Cmd>, dirs: seq<string>): seq<Path>
    decreases cmds
  {
    if cmds == [] then [] else OpensCmd(cmds[0], dirs) + Opens(cmds[1..], dirs)
  }

  function OpensCmd(c: Cmd, dirs: seq<string>): seq<Path>
    decreases c
  {
    match c
    case Include(pathname, script, newSection) =>
      var path := Join(Path(dirs, ""), pathname);
      (if newSection then [path] else []) + OpensScript(script, path)
    case _ => []
  }

  function OpensScript(script: Script, path: Path): seq<Path>
    decreases script
  {
    match script
    case Unloadable(_) => []
    case Script(_, body) => Opens(body, path.dirs)
  }

  lemma {:induction false} OpensAppend(a: seq<Cmd>, b: seq<Cmd>, dirs: seq<string>)
    ensures Opens(a + b, dirs) == Opens(a, dirs) + Opens(b, dirs)
    decreases |a|
  {
    if a == [] {
      assert a + b == b;
    } else {
      OpensAppend(a[1..], b, dirs);
      ConsAppend(a, b);
      OpensCons(a, dirs);
      OpensCons(a + b, dirs);
      Associative(OpensCmd(a[0], dirs), Opens(a[1..], dirs), Opens(b, dirs));
    }
  }

  lemma {:induction false} OpensCons(cmds: seq<Cmd>, dirs: seq<string>)
    requires cmds != []
    ensures Opens(cmds, dirs) == OpensCmd(cmds[0], dirs) + Opens(cmds[1..], dirs)
  {
  }

  lemma {:induction false} OpensOne(c: Cmd, dirs: seq<string>)
    ensures Opens([c], dirs) == OpensCmd(c, dirs)
  {
    OpensCons([c], dirs);
    assert [c][1..] == [];
  }

  /** The spliced calls, made from `dirs`, name the files the original ones named. */
  lemma {:induction false} SplicedOpensSame(cmds: seq<Cmd>, via: Pathname, dirs: seq<string>)
    ensures Opens(SpliceCmds(cmds, via), dirs) == Opens(cmds, Join(Path(dirs, ""), via).dirs)
    decreases cmds
  {
    if cmds != [] {
      SplicedCmdOpensSame(cmds[0], via, dirs);
      SplicedOpensSame(cmds[1..], via, dirs);
      OpensAppend(SpliceCmd(cmds[0], via), SpliceCmds(cmds[1..], via), dirs);
      OpensCons(cmds, Join(Path(dirs, ""), via).dirs);
    }
  }

  lemma {:induction false} SplicedCmdOpensSame(c: Cmd, via: Pathname, dirs: seq<string>)
    ensures Opens(SpliceCmd(c, via), dirs) == OpensCmd(c, Join(Path(dirs, ""), via).dirs)
    decreases c
  {
    if !c.Include? {
      assert SpliceCmd(c, via) == [c];
      OpensOne(c, dirs);
    } else {
      RerootNames(Path(dirs, ""), via, c.pathname);
      RerootNames(Path(dirs, ""), via, Pathname(c.pathname.absolute, c.pathname.dirs, ""));
      var path := Join(Path(dirs, ""), Reroot(via, c.pathname));
      assert path == Join(Path(Join(Path(dirs, ""), via).dirs, ""), c.pathname);
      if c.newSection {
        SplicedSectionOpens(c.script, path);
        var d := Include(Reroot(via, c.pathname), Splice(c.script), true);
        assert SpliceCmd(c, via) == [d];
        OpensOne(d, dirs);
        assert OpensCmd(d, dirs) == [path] + OpensScript(Splice(c.script), path);
      } else if c.script.Unloadable? {
        assert SpliceCmd(c, via) == [Raise(c.script.cause)];
        OpensOne(Raise(c.script.cause), dirs);
      } else {
        SplicedOpensSame(c.script.body, Reroot(via, c.pathname), dirs);
        assert SpliceCmd(c, via) == SpliceCmds(c.script.body, Reroot(via, c.pathname));
        assert OpensCmd(c, Join(Path(dirs, ""), via).dirs) == [] + Opens(c.script.body, path.dirs);
      }
    }
  }

  lemma {:induction false} SplicedSectionOpens(script: Script, path: Path)
    ensures OpensScript(Splice(script), path) == OpensScript(script, path)
    decreases script
  {
    if script.Script? {
      SplicedOpensSame(script.body, HERE, path.dirs);
      assert path.dirs + [] == path.dirs;
    }
  }

  // ---------- meaning ----------

  /** Equal but for the paths. */
  predicate SameInfo(a: Info, b: Info) {
    a.(path := b.path) == b
  }

  predicate Same(s: State, t: State) {
    && SameInfo(s.info, t.info)
    && |s.saved| == |t.saved|
    && (forall i :: 0 <= i < |s.saved| ==> SameInfo(s.saved[i], t.saved[i]))
    && s.inSection == t.inSection
    && s.log == t.log
  }

  /** What was first raised. */
  function RootCause(f: Fault): Fault {
    match f
    case Raised(_) => f
    case ScriptError(cause) => RootCause(cause)
  }

  /** Both end the same way, from the same cause. Each include a ScriptError crosses wraps it
      once more, and an include drops the description of the CLI exception. */
  predicate SameOutcome(a: Outcome, b: Outcome) {
    match (a, b)
    case (Done, Done) => true
    case (Failed(f), Failed(g)) => RootCause(f) == RootCause(g)
    case (Cli(d), Cli(e)) => d == e || d == ""
    case _ => false
  }

  predicate SameRun(a: Run, b: Run) {
    && a.state.WellFormed() && b.state.WellFormed()
    && Same(a.state, b.state)
    && SameOutcome(a.outcome, b.outcome)
  }

  lemma {:induction false} ExecAppend(args: Args, a: seq<Cmd>, b: seq<Cmd>, s: State)
    requires s.WellFormed()
    ensures var r := ExecCmds(args, a, s);
            ExecCmds(args, a + b, s) == if r.outcome.Done? then ExecCmds(args, b, r.state) else r
    decreases a
  {
    if a == [] {
      assert a + b == b;
    } else {
      var r := ExecCmd(args, a[0], s);
      assert (a + b)[1..] == a[1..] + b;
      if r.outcome.Done? {
        ExecAppend(args, a[1..], b, r.state);
      }
    }
  }

  lemma {:induction false} SectionsSame(s: State, t: State, p: Path, q: Path, title: string)
    requires s.WellFormed() && t.WellFormed() && Same(s, t)
    ensures Same(StartExecSection(s, p), StartExecSection(t, q))
    ensures Same(StartSection(s, title), StartSection(t, title))
  {
  }

  lemma {:induction false} LeaveSame(s: State, t: State, p: Path, q: Path)
    requires s.WellFormed() && t.WellFormed() && Same(s, t)
    requires s.Below() != [] && t.Below() != []
    ensures Same(Leave(s, p, true), Leave(t, q, true))
  {
  }

  /** The single call, for which splicing leaves nothing to replace at this level. */
  lemma {:induction false} ExecOne(args: Args, c: Cmd, s: State)
    requires s.WellFormed()
    ensures ExecCmds(args, [c], s) == ExecCmd(args, c, s)
  {
  }

  lemma {:induction false} CmdsSame(args: Args, cmds: seq<Cmd>, via: Pathname, s: State, t: State)
    requires s.WellFormed() && t.WellFormed() && Same(s, t)
    ensures SameRun(ExecCmds(args, cmds, s), ExecCmds(args, SpliceCmds(cmds, via), t))
    decreases cmds
  {
    if cmds != [] {
      CmdSame(args, cmds[0], via, s, t);
      var r, q := ExecCmd(args, cmds[0], s), ExecCmds(args, SpliceCmd(cmds[0], via), t);
      ExecAppend(args, SpliceCmd(cmds[0], via), SpliceCmds(cmds[1..], via), t);
      if r.outcome.Done? {
        CmdsSame(args, cmds[1..], via, r.state, q.state);
      }
    }
  }

  /** A call that is not an include. */
  lemma {:induction false} BasicSame(args: Args, c: Cmd, s: State, t: State)
    requires s.WellFormed() && t.WellFormed() && Same(s, t) && !c.Include?
    ensures SameRun(ExecCmd(args, c, s), ExecCmd(args, c, t))
  {
    if c.Section? {
      SectionsSame(s, t, s.info.path, t.info.path, c.title);
    }
  }

  lemma {:induction false} CmdSame(args: Args, c: Cmd, via: Pathname, s: State, t: State)
    requires s.WellFormed() && t.WellFormed() && Same(s, t)
    ensures SameRun(ExecCmd(args, c, s), ExecCmds(args, SpliceCmd(c, via), t))
    decreases c
  {
    if !c.Include? {
      BasicSame(args, c, s, t);
      ExecOne(args, c, t);
      assert SpliceCmd(c, via) == [c];
    } else if c.newSection {
      var d := Include(Reroot(via, c.pathname), Splice(c.script), true);
      assert SpliceCmd(c, via) == [d];
      ExecOne(args, d, t);
      SectionSame(args, Join(s.info.path, c.pathname), Join(t.info.path, d.pathname), c.script, s, t);
    } else {
      InlineSame(args, c.pathname, c.script, via, s, t);
    }
  }

  lemma {:induction false} InlineSame(args: Args, pathname: Pathname, script: Script, via: Pathname, s: State, t: State)
    requires s.WellFormed() && t.WellFormed() && Same(s, t)
    ensures SameRun(Included(args, Join(s.info.path, pathname), script, false, s),
                    ExecCmds(args, SpliceCmd(Include(pathname, script, false), via), t))
    decreases script
  {
    match script
    case Unloadable(cause) =>
      ExecOne(args, Raise(cause), t);
      assert ExecCmd(args, Raise(cause), t) == Run(t, Failed(cause));
      assert SpliceCmd(Include(pathname, script, false), via) == [Raise(cause)];
      var u := SetPath(s, Join(s.info.path, pathname));
      assert ExecScript(args, script, u, false) == Run(u, Failed(cause));
    case Script(_, body) =>
      CmdsSame(args, body, Reroot(via, pathname), SetPath(s, Join(s.info.path, pathname)), t);
  }

  /** A script run with its header. */
  lemma {:induction false} ScriptSame(args: Args, script: Script, s: State, t: State)
    requires s.WellFormed() && t.WellFormed() && Same(s, t) && s.info.path.name == t.info.path.name
    ensures SameRun(ExecScript(args, script, s, true), ExecScript(args, Splice(script), t, true))
    decreases script, 0
  {
    if script.Script? {
      CmdsSame(args, script.body, HERE, Begin(script, s, true), Begin(Splice(script), t, true));
    }
  }

  lemma {:induction false} RethrowSame(a: Outcome, b: Outcome)
    requires SameOutcome(a, b)
    ensures SameOutcome(Rethrow(a), Rethrow(b))
  {
  }

  lemma {:induction false} SectionSame(args: Args, p: Path, q: Path, script: Script, s: State, t: State)
    requires s.WellFormed() && t.WellFormed() && Same(s, t)
    requires p.name == q.name
    ensures SameRun(Included(args, p, script, true, s), Included(args, q, Splice(script), true, t))
    decreases script, 1
  {
    SectionsSame(s, t, p, q, "");
    var s', t' := StartExecSection(s, p), StartExecSection(t, q);
    ScriptSame(args, script, s', t');
    var r, r' := ExecScript(args, script, s', true), ExecScript(args, Splice(script), t', true);
    LeaveSame(r.state, r'.state, s.info.path, t.info.path);
    RethrowSame(r.outcome, r'.outcome);
    assert Included(args, p, script, true, s) == Run(Leave(r.state, s.info.path, true), Rethrow(r.outcome));
    assert Included(args, q, Splice(script), true, t) == Run(Leave(r'.state, t.info.path, true), Rethrow(r'.outcome));
  }

  /** Splicing leaves no inline include and changes nothing `execute` shows: the log of
      numbers, results and headers, the totals and the outcome. */
  lemma {:induction false} IncludeIsSplicing(args: Args, script: Script, tag: Number, path: Path)
    ensures Splice(script).Script? ==> NoInline(Splice(script).body)
    ensures var s := Initial(tag, path);
            && Final(args, script, s).log == Final(args, Splice(script), s).log
            && match (Execute(args, script, s), Execute(args, Splice(script), s))
               case (Totals(p, f, o), Totals(p', f', o')) => p == p' && f == f' && SameOutcome(o, o')
               case (Escaped(d), Escaped(e)) => d == e || d == ""
               case _ => false
  {
    var s := Initial(tag, path);
    if script.Script? {
      SplicedHasNoInline(script.body, HERE);
      CmdsSame(args, script.body, HERE, Begin(script, s, true), Begin(Splice(script), s, true));
    }
  }
}
