/** `script_dir()`: when the path on the top frame is the file being executed. */
module ScriptPaths {
  import opened Scripts
  import opened TestMachine
  import opened Points

  /** At every call the top frame's path is the path of the calling script's file. */
  predicate Faithful(ps: seq<Point>) {
    forall i :: 0 <= i < |ps| ==> ps[i].state.info.path == ps[i].file
  }

  lemma {:induction false} FaithfulAppend(a: seq<Point>, b: seq<Point>)
    ensures Faithful(a + b) <==> Faithful(a) && Faithful(b)
  {
    if Faithful(a + b) {
      assert forall i :: 0 <= i < |a| ==> a[i] == (a + b)[i];
      assert forall i :: 0 <= i < |b| ==> b[i] == (a + b)[i + |a|];
    }
  }

  /** An absolute pathname names one file from everywhere; a relative one the file in the directories
      it lists under that of the current file, which may be named from further up as well. */
  lemma {:induction false} JoinNames(current: Path, p: Pathname, up: seq<string>)
    ensures Join(current, p).name == p.name
    ensures p.absolute ==> Join(current, p) == Path(p.dirs, p.name)
    ensures !p.absolute ==>
              && Join(Path([], current.name), p) == Path(p.dirs, p.name)
              && Join(Path(up + current.dirs, current.name), p).dirs == up + Join(current, p).dirs
  {
  }

  // ---------- what can be read off the script ----------

  datatype Opener = NoSection | OpenedBy(file: Path)

  /** Whether the call returns normally. */
  predicate Completes(args: Args, c: Cmd)
    decreases c
  {
    match c
    case Test(success, desc, answers) => ActOnResult(args, success, desc, answers).Done?
    case Match(success, desc, answers) => ActOnResult(args, success, desc, answers).Done?
    case Section(_) => true
    case Include(_, script, _) => script.Script? && AllComplete(args, script.body)
    case Raise(_) => false
    case AskCli(_) => false
  }

  predicate AllComplete(args: Args, cmds: seq<Cmd>)
    decreases cmds
  {
    cmds == [] || (Completes(args, cmds[0]) && AllComplete(args, cmds[1..]))
  }

  /** The file whose call opened the section that is open after the calls, when the calls are
      made in `file` with the section open that `opener` opened. */
  function After(cmds: seq<Cmd>, file: Path, opener: Opener): Opener
    decreases cmds
  {
    if cmds == [] then opener else After(cmds[1..], file, AfterCmd(cmds[0], file, opener))
  }

  function AfterCmd(c: Cmd, file: Path, opener: Opener): Opener
    decreases c
  {
    match c
    case Section(_) => if opener.NoSection? then OpenedBy(file) else opener
    case Include(pathname, script, newSection) =>
      if newSection then
        NoSection
      else if script.Script? then
        After(script.body, Join(file, pathname), opener)
      else
        opener
    case _ => opener
  }

  /** No section-creating include that is followed by another call of its script ends a section
      that a different file opened. */
  predicate Safe(args: Args, cmds: seq<Cmd>, file: Path, opener: Opener)
    decreases cmds
  {
    cmds != [] ==>
      var c := cmds[0];
      && SafeCmd(args, c, file, opener)
      && (Completes(args, c) && |cmds| > 1 ==>
            && (c.Include? && c.newSection ==> opener == NoSection || opener == OpenedBy(file))
            && Safe(args, cmds[1..], file, AfterCmd(c, file, opener)))
  }

  predicate SafeCmd(args: Args, c: Cmd, file: Path, opener: Opener)
    decreases c
  {
    c.Include? && c.script.Script? ==>
      Safe(args, c.script.body, Join(file, c.pathname), if c.newSection then NoSection else opener)
  }

  // ---------- the run agrees with it ----------

  lemma {:induction false} OutcomeIsStatic(args: Args, cmds: seq<Cmd>, s: State)
    requires s.WellFormed()
    ensures ExecCmds(args, cmds, s).outcome.Done? <==> AllComplete(args, cmds)
    decreases cmds
  {
    if cmds != [] {
      CmdOutcomeIsStatic(args, cmds[0], s);
      if Completes(args, cmds[0]) {
        OutcomeIsStatic(args, cmds[1..], ExecCmd(args, cmds[0], s).state);
      }
    }
  }

  lemma {:induction false} IncludeUnfolds(args: Args, c: Cmd, s: State)
    requires s.WellFormed() && c.Include?
    ensures var t := Enter(s, Join(s.info.path, c.pathname), c.newSection);
            var r := if c.script.Unloadable? then Run(t, Failed(c.script.cause))
                     else ExecCmds(args, c.script.body, Begin(c.script, t, c.newSection));
            ExecCmd(args, c, s) == Run(Leave(r.state, s.info.path, c.newSection), Rethrow(r.outcome))
  {
    var path := Join(s.info.path, c.pathname);
    assert ExecCmd(args, c, s) == Included(args, path, c.script, c.newSection, s);
    var t := Enter(s, path, c.newSection);
    var r := if c.script.Unloadable? then Run(t, Failed(c.script.cause))
             else ExecCmds(args, c.script.body, Begin(c.script, t, c.newSection));
    assert ExecScript(args, c.script, t, c.newSection) == r;
  }

  lemma {:induction false} CmdOutcomeIsStatic(args: Args, c: Cmd, s: State)
    requires s.WellFormed()
    ensures ExecCmd(args, c, s).outcome.Done? <==> Completes(args, c)
    decreases c
  {
    if c.Include? {
      IncludeUnfolds(args, c, s);
    }
    if c.Include? && c.script.Script? {
      var t := Enter(s, Join(s.info.path, c.pathname), c.newSection);
      OutcomeIsStatic(args, c.script.body, Begin(c.script, t, c.newSection));
    }
  }

  /** The path that shows again when the open section is ended is that of its opener. */
  predicate Linked(s: State, opener: Opener)
    requires s.WellFormed()
  {
    if s.inSection then opener == OpenedBy(s.Base().path) else opener == NoSection
  }

  /** An inline include always brings the includer's path back; a section-creating one brings
      back the path of the frame its section ended on. */
  lemma {:induction false} IncludeRestores(args: Args, pathname: Pathname, script: Script, s: State)
    requires s.WellFormed()
    ensures ExecCmd(args, Include(pathname, script, false), s).state.info.path == s.info.path
    ensures var t := ExecCmd(args, Include(pathname, script, true), s).state;
            t.info.path == s.Base().path && !t.inSection
  {
  }

  lemma {:induction false} CmdsFaithful(args: Args, cmds: seq<Cmd>, s: State, opener: Opener, includes: nat)
    requires s.WellFormed() && Linked(s, opener)
    ensures var file := s.info.path;
            && (Faithful(CmdsPoints(args, cmds, s, file, includes)) <==> Safe(args, cmds, file, opener))
            && (Safe(args, cmds, file, opener) && AllComplete(args, cmds)
                ==> Linked(ExecCmds(args, cmds, s).state, After(cmds, file, opener)))
    decreases cmds
  {
    var file := s.info.path;
    if cmds != [] {
      var c, rest := cmds[0], cmds[1..];
      var r := ExecCmd(args, c, s);
      var here := [Point(file, includes, s)];
      var inside := CmdPoints(args, c, s, includes);
      CmdOutcomeIsStatic(args, c, s);
      CmdFaithful(args, c, s, opener, includes);
      FaithfulAppend(here, inside);
      assert here + inside + [] == here + inside;
      if r.outcome.Done? {
        var later := CmdsPoints(args, rest, r.state, file, includes);
        FaithfulAppend(here + inside, later);
        if r.state.info.path == file && SafeCmd(args, c, file, opener) {
          CmdsFaithful(args, rest, r.state, AfterCmd(c, file, opener), includes);
        } else if rest != [] {
          assert later[0] == Point(file, includes, r.state);
        }
      }
    }
  }

  lemma {:induction false} CmdFaithful(args: Args, c: Cmd, s: State, opener: Opener, includes: nat)
    requires s.WellFormed() && Linked(s, opener)
    ensures var file := s.info.path;
            var r := ExecCmd(args, c, s);
            && (Faithful(CmdPoints(args, c, s, includes)) <==> SafeCmd(args, c, file, opener))
            && (SafeCmd(args, c, file, opener) && Completes(args, c) ==> Linked(r.state, AfterCmd(c, file, opener)))
            && (r.state.info.path == file <==>
                  (c.Include? && c.newSection ==> opener == NoSection || opener == OpenedBy(file)))
    decreases c
  {
    if c.Include? {
      IncludeRestores(args, c.pathname, c.script, s);
      if c.script.Unloadable? {
        assert IncludedPoints(args, Join(s.info.path, c.pathname), c.script, c.newSection, s, includes) == [];
      } else {
        if c.newSection {
          SectionFaithful(args, c.pathname, c.script, s, opener, includes);
        } else {
          InlineFaithful(args, c.pathname, c.script, s, opener, includes);
        }
      }
    }
  }

  lemma {:induction false} SectionFaithful(args: Args, pathname: Pathname, script: Script,
                                           s: State, opener: Opener, includes: nat)
    requires s.WellFormed() && script.Script?
    ensures var c := Include(pathname, script, true);
            Faithful(CmdPoints(args, c, s, includes)) <==> SafeCmd(args, c, s.info.path, opener)
    decreases script
  {
    var c := Include(pathname, script, true);
    var t := StartExecSection(s, Join(s.info.path, pathname));
    CmdsFaithful(args, script.body, Begin(script, t, true), NoSection, includes + 1);
    assert CmdPoints(args, c, s, includes) == ScriptPoints(args, script, t, true, t.info.path, includes + 1);
  }

  lemma {:induction false} InlineFaithful(args: Args, pathname: Pathname, script: Script, s: State,
                                          opener: Opener, includes: nat)
    requires s.WellFormed() && Linked(s, opener) && script.Script?
    ensures var c, file := Include(pathname, script, false), s.info.path;
            && (Faithful(CmdPoints(args, c, s, includes)) <==> SafeCmd(args, c, file, opener))
            && (SafeCmd(args, c, file, opener) && Completes(args, c)
                ==> Linked(ExecCmd(args, c, s).state, AfterCmd(c, file, opener)))
    decreases script
  {
    var c := Include(pathname, script, false);
    var t := SetPath(s, Join(s.info.path, pathname));
    IncludeUnfolds(args, c, s);
    CmdsFaithful(args, script.body, t, opener, includes);
    assert CmdPoints(args, c, s, includes) == ScriptPoints(args, script, t, false, t.info.path, includes);
  }

  /** `script_dir()` is right at every call of a run exactly when the script is `Safe`. */
  lemma {:induction false} PathIffSafe(args: Args, script: Script, tag: Number, path: Path)
    ensures Faithful(ScriptPoints(args, script, Initial(tag, path), true, path, 0))
       <==> (script.Script? ==> Safe(args, script.body, path, NoSection))
  {
    if script.Script? {
      CmdsFaithful(args, script.body, Begin(script, Initial(tag, path), true), NoSection, 0);
    }
  }

  // ---------- two families that are safe, and the smallest that is not ----------

  /** No `section()` (or no section-creating include) anywhere in the calls. */
  predicate Lacks(cmds: seq<Cmd>, sections: bool)
    decreases cmds
  {
    cmds == [] || (LacksCmd(cmds[0], sections) && Lacks(cmds[1..], sections))
  }

  predicate LacksCmd(c: Cmd, sections: bool)
    decreases c
  {
    && !(c.Section? && sections)
    && (c.Include? ==> (c.newSection ==> sections) && (c.script.Script? ==> Lacks(c.script.body, sections)))
  }

  lemma {:induction false} UnmixedIsSafe(args: Args, cmds: seq<Cmd>, file: Path, opener: Opener, sections: bool)
    requires Lacks(cmds, sections) && (sections ==> opener == NoSection)
    ensures Safe(args, cmds, file, opener)
    ensures sections ==> After(cmds, file, opener) == NoSection
    decreases cmds
  {
    if cmds != [] {
      UnmixedCmdIsSafe(args, cmds[0], file, opener, sections);
      UnmixedIsSafe(args, cmds[1..], file, AfterCmd(cmds[0], file, opener), sections);
    }
  }

  lemma {:induction false} UnmixedCmdIsSafe(args: Args, c: Cmd, file: Path, opener: Opener, sections: bool)
    requires LacksCmd(c, sections) && (sections ==> opener == NoSection)
    ensures SafeCmd(args, c, file, opener)
    ensures sections ==> AfterCmd(c, file, opener) == NoSection
    decreases c
  {
    if c.Include? && c.script.Script? {
      UnmixedIsSafe(args, c.script.body, Join(file, c.pathname), if c.newSection then NoSection else opener, sections);
    }
  }

  /** A run without `section()`, or without a section-creating include, always has the right path. */
  lemma {:induction false} UnmixedIsFaithful(args: Args, script: Script, tag: Number, path: Path, sections: bool)
    requires script.Script? ==> Lacks(script.body, sections)
    ensures Faithful(ScriptPoints(args, script, Initial(tag, path), true, path, 0))
  {
    PathIffSafe(args, script, tag, path);
    if script.Script? {
      UnmixedIsSafe(args, script.body, path, NoSection, sections);
    }
  }

  /** A section opened by an inline include and ended by a section-creating one leaves the
      inline include's path on the frame of the file that included both. */
  lemma {:induction false} MixedCanFail(args: Args, tag: Number, path: Path)
    requires path.name != "inline.py"
    ensures var inl := Include(Pathname(false, [], "inline.py"), Script("", [Section("s")]), false);
            var sec := Include(Pathname(false, [], "sec.py"), Script("", []), true);
            !Faithful(ScriptPoints(args, Script("", [inl, sec, Section("t")]), Initial(tag, path), true, path, 0))
  {
    var inl := Include(Pathname(false, [], "inline.py"), Script("", [Section("s")]), false);
    var sec := Include(Pathname(false, [], "sec.py"), Script("", []), true);
    var body := [inl, sec, Section("t")];
    PathIffSafe(args, Script("", body), tag, path);
    assert body[1..] == [sec, Section("t")];
    assert [Section("s")][1..] == [];
    assert AllComplete(args, [Section("s")]) && Completes(args, inl);
    var opener := OpenedBy(Join(path, inl.pathname));
    assert After([Section("s")][1..], Join(path, inl.pathname), opener) == opener;
    assert AfterCmd(inl, path, NoSection) == opener;
    assert !Safe(args, body[1..], path, opener);
  }
}
