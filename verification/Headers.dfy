/** The number on a header line is that of the frame it is the header of. */
module Headers {
  import opened Scripts
  import opened TestMachine

  /** Each header comes right after its frame was opened and has its number; the first one may
      come at the very start, with the test's own number. */
  predicate Headed(log: seq<Event>, own: Number) {
    forall i :: 0 <= i < |log| ==> HeadedAt(log, i, own)
  }

  predicate HeadedAt(log: seq<Event>, i: nat, own: Number)
    requires i < |log|
  {
    log[i].Header? ==> if i == 0 then log[i].number == own else log[i - 1] == Opened(log[i].number)
  }

  lemma {:induction false} Append(log: seq<Event>, e: Event, own: Number)
    requires Headed(log, own) && HeadedAt(log + [e], |log|, own)
    ensures Headed(log + [e], own)
  {
    forall i | 0 <= i < |log|
      ensures HeadedAt(log + [e], i, own)
    {
      assert HeadedAt(log, i, own);
    }
  }

  /** A header for the top frame is in place now. */
  predicate Due(s: State, own: Number) {
    if s.log == [] then s.info.tag == own else s.log[|s.log| - 1] == Opened(s.info.tag)
  }

  lemma {:induction false} HeaderInPlace(s: State, text: string, own: Number)
    requires Headed(s.log, own) && Due(s, own)
    ensures Headed(PrintHeader(s, text).log, own)
  {
    Append(s.log, Header(s.info.tag, text), own);
  }

  lemma {:induction false} OtherEvent(log: seq<Event>, e: Event, own: Number)
    requires Headed(log, own) && !e.Header?
    ensures Headed(log + [e], own)
  {
    Append(log, e, own);
  }

  lemma {:induction false} PushHeaded(s: State, path: Path, own: Number)
    requires s.WellFormed() && Headed(s.log, own)
    ensures var t := PushExecInfo(EndOpenSection(s), path); Headed(t.log, own) && Due(t, own)
  {
    var t := PushExecInfo(EndOpenSection(s), path);
    assert t.log == s.log + [Opened(t.info.tag)];
    OtherEvent(s.log, Opened(t.info.tag), own);
  }

  lemma {:induction false} SectionHeaded(s: State, title: string, own: Number)
    requires s.WellFormed() && Headed(s.log, own)
    ensures Headed(StartSection(s, title).log, own)
  {
    PushHeaded(s, s.info.path, own);
    HeaderInPlace(PushExecInfo(EndOpenSection(s), s.info.path).(inSection := true), title, own);
  }

  lemma {:induction false} CmdsHeaded(args: Args, cmds: seq<Cmd>, s: State, own: Number)
    requires s.WellFormed() && Headed(s.log, own)
    ensures Headed(ExecCmds(args, cmds, s).state.log, own)
    decreases cmds
  {
    if cmds != [] {
      CmdHeaded(args, cmds[0], s, own);
      if ExecCmd(args, cmds[0], s).outcome.Done? {
        CmdsHeaded(args, cmds[1..], ExecCmd(args, cmds[0], s).state, own);
      }
    }
  }

  lemma {:induction false} PostHeaded(s: State, success: bool, desc: string, own: Number)
    requires Headed(s.log, own)
    ensures Headed(PostResult(s, success, desc).log, own)
  {
    var e := Result(s.info.tag + [s.info.steps + 1], success, desc);
    assert PostResult(s, success, desc).log == s.log + [e];
    OtherEvent(s.log, e, own);
  }

  lemma {:induction false} CmdHeaded(args: Args, c: Cmd, s: State, own: Number)
    requires s.WellFormed() && Headed(s.log, own)
    ensures Headed(ExecCmd(args, c, s).state.log, own)
    decreases c
  {
    match c
    case Test(success, desc, _) => PostHeaded(s, success, desc, own);
    case Match(success, desc, _) => PostHeaded(s, success, desc, own);
    case Section(title) => SectionHeaded(s, title, own);
    case Include(pathname, script, newSection) =>
      IncludeHeaded(args, Join(s.info.path, pathname), script, newSection, s, own);
    case _ =>
  }

  lemma {:induction false} IncludeHeaded(args: Args, path: Path, script: Script, newSection: bool, s: State,
                                         own: Number)
    requires s.WellFormed() && Headed(s.log, own)
    ensures Headed(Included(args, path, script, newSection, s).state.log, own)
    decreases script, 1
  {
    var t := Enter(s, path, newSection);
    if newSection {
      PushHeaded(s, path, own);
    }
    ScriptHeaded(args, script, t, newSection, own);
    var r := ExecScript(args, script, t, newSection);
    assert Leave(r.state, s.info.path, newSection).log == r.state.log;
  }

  lemma {:induction false} ScriptHeaded(args: Args, script: Script, s: State, header: bool, own: Number)
    requires s.WellFormed() && Headed(s.log, own) && (header ==> Due(s, own))
    ensures Headed(ExecScript(args, script, s, header).state.log, own)
    decreases script, 0
  {
    match script
    case Unloadable(_) =>
    case Script(doc, body) =>
      if header {
        HeaderInPlace(s, Title(doc, s.info.path), own);
      }
      CmdsHeaded(args, body, Begin(script, s, header), own);
  }

  /** So it is in every run. */
  lemma {:induction false} RunIsHeaded(args: Args, script: Script, tag: Number, path: Path)
    ensures Headed(Final(args, script, Initial(tag, path)).log, tag)
  {
    ScriptHeaded(args, script, Initial(tag, path), true, tag);
  }
}
