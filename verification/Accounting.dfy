/** Conservation of results, gap-free increasing numbers and stack discipline. */
module Accounting {
  import opened Scripts
  import opened TestMachine
  import opened Numbers
  import opened Points

  function Frames(s: State): seq<Info> {
    s.saved + [s.info]
  }

  /** PASS (or FAIL) results counted by these frames. */
  function Counted(frames: seq<Info>, success: bool): nat {
    if frames == [] then
      0
    else
      var f := frames[|frames| - 1];
      Counted(frames[..|frames| - 1], success) + if success then f.passed else f.failed
  }

  /** PASS (or FAIL) results in the log. */
  function Posted(log: seq<Event>, success: bool): nat {
    if log == [] then
      0
    else
      var e := log[|log| - 1];
      Posted(log[..|log| - 1], success) + if e.Result? && e.success == success then 1 else 0
  }

  /** The numbers given out so far, to results and to new frames. */
  function GivenOut(log: seq<Event>): seq<Number> {
    if log == [] then
      []
    else
      var e := log[|log| - 1];
      GivenOut(log[..|log| - 1]) + if e.Header? then [] else [e.number]
  }

  /** The numbers of the lines printed so far, which are headers and results. */
  function Printed(log: seq<Event>): seq<Number> {
    if log == [] then
      []
    else
      var e := log[|log| - 1];
      Printed(log[..|log| - 1]) + if e.Opened? then [] else [e.number]
  }

  /** The last parts of the numbers given out directly under `tag`. */
  function Under(ns: seq<Number>, tag: Number): seq<nat> {
    if ns == [] then
      []
    else
      var n := ns[|ns| - 1];
      Under(ns[..|ns| - 1], tag)
      + if n != [] && n[..|n| - 1] == tag then [n[|n| - 1]] else []
  }

  /** 1, 2, ..., n. */
  function UpTo(n: nat): (r: seq<nat>)
    ensures |r| == n
  {
    seq(n, i => i + 1)
  }

  /** The next number the frame gives out. */
  function Next(f: Info): Number {
    f.tag + [f.steps + 1]
  }

  /** Each frame was opened under the current step of the frame below it. */
  predicate Chained(frames: seq<Info>) {
    forall i :: 0 <= i < |frames| - 1 ==> frames[i + 1].tag == frames[i].tag + [frames[i].steps]
  }

  /** A frame's steps are its own results and the frames opened under it, numbered from 1. */
  predicate StepsAgree(frames: seq<Info>, ns: seq<Number>) {
    forall i :: 0 <= i < |frames| ==> Under(ns, frames[i].tag) == UpTo(frames[i].steps)
  }

  /** Under every tag, of a live or a finished frame, the numbers are 1, 2, 3, ... in order. */
  ghost predicate GapFree(ns: seq<Number>) {
    forall tag :: Under(ns, tag) == UpTo(|Under(ns, tag)|)
  }

  ghost predicate Numbered(frames: seq<Info>, ns: seq<Number>) {
    && frames != []
    && Chained(frames)
    && StepsAgree(frames, ns)
    && GapFree(ns)
    && Increasing(ns)
    && (forall n :: n in ns ==> n != [])
    && AllLess(ns, Next(frames[|frames| - 1]))
  }

  /** No result is lost or counted twice. */
  predicate Conserved(s: State) {
    forall success :: Counted(Frames(s), success) == Posted(s.log, success)
  }

  /** The printed numbers increase, and the next number is above them. */
  predicate InOrder(printed: seq<Number>, top: Info) {
    Increasing(printed) && AllLess(printed, Next(top))
  }

  ghost predicate Inv(s: State) {
    && s.WellFormed() && Conserved(s) && Numbered(Frames(s), GivenOut(s.log))
    && InOrder(Printed(s.log), s.info)
    && ([] in Printed(s.log) ==> BaseTag(s) == [])
  }

  /** The test's own number. */
  function BaseTag(s: State): Number {
    Frames(s)[0].tag
  }

  /** The top frame's header may be printed: nothing with its number, or a later one, has been. */
  predicate HeaderDue(s: State) {
    AllLess(Printed(s.log), s.info.tag)
  }

  // ---------- what each operation keeps ----------

  lemma {:induction false} UnderAppend(ns: seq<Number>, n: Number, tag: Number)
    ensures Under(ns + [n], tag) == Under(ns, tag) + if n != [] && n[..|n| - 1] == tag then [n[|n| - 1]] else []
  {
  }

  lemma {:induction false} LogAppend(log: seq<Event>, e: Event)
    ensures GivenOut(log + [e]) == if e.Header? then GivenOut(log) else GivenOut(log) + [e.number]
    ensures Printed(log + [e]) == if e.Opened? then Printed(log) else Printed(log) + [e.number]
    ensures forall success :: Posted(log + [e], success)
              == Posted(log, success) + if e.Result? && e.success == success then 1 else 0
  {
  }

  lemma {:induction false} CountedAppend(frames: seq<Info>, f: Info, success: bool)
    ensures Counted(frames + [f], success) == Counted(frames, success) + if success then f.passed else f.failed
  {
  }

  lemma {:induction false} TagLengths(frames: seq<Info>, i: nat, j: nat)
    requires Chained(frames) && i <= j < |frames|
    ensures |frames[j].tag| == |frames[i].tag| + j - i
  {
    if i < j {
      TagLengths(frames, i, j - 1);
      assert frames[j - 1 + 1].tag == frames[j - 1].tag + [frames[j - 1].steps];
    }
  }

  /** The top frame gives out its next number. */
  lemma {:induction false} GiveOut(below: seq<Info>, f: Info, g: Info, ns: seq<Number>)
    requires Numbered(below + [f], ns)
    requires g.tag == f.tag && g.steps == f.steps + 1
    ensures Numbered(below + [g], ns + [Next(f)])
  {
    var before, after := below + [f], below + [g];
    var n, ns' := Next(f), ns + [Next(f)];
    assert n[..|n| - 1] == f.tag;
    assert Chained(after) by {
      forall i | 0 <= i < |after| - 1
        ensures after[i + 1].tag == after[i].tag + [after[i].steps]
      {
        assert before[i + 1].tag == before[i].tag + [before[i].steps];
      }
    }
    forall tag
      ensures Under(ns', tag) == UpTo(|Under(ns', tag)|)
      ensures tag != f.tag ==> Under(ns', tag) == Under(ns, tag)
      ensures tag == f.tag ==> Under(ns', tag) == UpTo(g.steps)
    {
      UnderAppend(ns, n, tag);
      assert before[|below|] == f;
    }
    forall i | 0 <= i < |after|
      ensures Under(ns', after[i].tag) == UpTo(after[i].steps)
    {
      if i < |below| {
        TagLengths(before, i, |below|);
        assert Under(ns, before[i].tag) == UpTo(before[i].steps);
      }
    }
    assert AllLess(ns', Next(g)) by {
      LessUnder(f.tag, f.steps + 1, [], g.steps + 1);
      assert n + [] == n;
      AllLessWeaken(ns, n, Next(g));
    }
    assert Increasing(ns') by {
      forall i, j | 0 <= i < j < |ns'|
        ensures Less(ns'[i], ns'[j])
      {
        assert ns'[i] == ns[i];
      }
    }
  }

  /** A frame is opened under the number given out last. */
  lemma {:induction false} OpenFrame(frames: seq<Info>, f: Info, ns: seq<Number>)
    requires Numbered(frames, ns)
    requires ns != [] && f.tag == ns[|ns| - 1] && f.steps == 0
    requires f.tag == frames[|frames| - 1].tag + [frames[|frames| - 1].steps]
    ensures Numbered(frames + [f], ns)
  {
    var all := frames + [f];
    assert AllLess(ns, Next(f)) && Under(ns, f.tag) == [] by {
      forall n | n in ns
        ensures n == f.tag || Less(n, f.tag)
      {
        var i :| 0 <= i < |ns| && ns[i] == n;
        assert i < |ns| - 1 ==> Less(ns[i], ns[|ns| - 1]);
      }
      LessExtended(f.tag, 1);
      forall n | n in ns
        ensures Less(n, Next(f))
      {
        if n != f.tag {
          LessTransitive(n, f.tag, Next(f));
        }
      }
      NothingUnder(ns, f.tag);
    }
    forall i | 0 <= i < |all|
      ensures Under(ns, all[i].tag) == UpTo(all[i].steps)
    {
      assert i < |frames| ==> all[i] == frames[i];
    }
    forall i | 0 <= i < |all| - 1
      ensures all[i + 1].tag == all[i].tag + [all[i].steps]
    {
      assert all[i] == frames[i];
    }
  }

  lemma {:induction false} NothingUnder(ns: seq<Number>, tag: Number)
    requires forall n :: n in ns ==> n == tag || Less(n, tag)
    ensures Under(ns, tag) == []
  {
    if ns != [] {
      var n := ns[|ns| - 1];
      NothingUnder(ns[..|ns| - 1], tag);
      if n != [] && n[..|n| - 1] == tag {
        LessExtended(tag, n[|n| - 1]);
        assert tag + [n[|n| - 1]] == n;
        LessTransitive(n, tag, n);
        LessIrreflexive(n);
        assert false;
      }
    }
  }

  /** The top frame is closed. */
  lemma {:induction false} CloseFrame(below: seq<Info>, parent: Info, f: Info, g: Info, ns: seq<Number>)
    requires Numbered(below + [parent, f], ns)
    requires g.tag == parent.tag && g.steps == parent.steps
    ensures Numbered(below + [g], ns) && Less(Next(f), Next(g))
  {
    var before, after := below + [parent, f], below + [g];
    assert f.tag == parent.tag + [parent.steps] by {
      assert before[|below| + 1] == f && before[|below|] == parent;
    }
    forall i | 0 <= i < |after|
      ensures Under(ns, after[i].tag) == UpTo(after[i].steps)
      ensures i < |after| - 1 ==> after[i + 1].tag == after[i].tag + [after[i].steps]
    {
      assert after[i].tag == before[i].tag && after[i].steps == before[i].steps;
      assert before[i + 1].tag == before[i].tag + [before[i].steps];
    }
    LessUnder(parent.tag, parent.steps, [f.steps + 1], g.steps + 1);
    assert Next(f) == parent.tag + [parent.steps] + [f.steps + 1];
    AllLessWeaken(ns, Next(f), Next(g));
  }

  /** A number above those printed is printed next. */
  lemma {:induction false} PrintNext(printed: seq<Number>, n: Number, top: Info)
    requires Increasing(printed) && AllLess(printed, n) && Less(n, Next(top))
    ensures InOrder(printed + [n], top)
  {
    var ns := printed + [n];
    forall i, j | 0 <= i < j < |ns|
      ensures Less(ns[i], ns[j])
    {
      assert ns[i] == printed[i] && ns[i] in printed;
    }
    AllLessWeaken(printed, n, Next(top));
  }

  lemma {:induction false} PrintedLater(printed: seq<Number>, top: Info, other: Info)
    requires InOrder(printed, top) && Less(Next(top), Next(other))
    ensures InOrder(printed, other)
  {
    AllLessWeaken(printed, Next(top), Next(other));
  }

  lemma {:induction false} PostNumbered(s: State, t: State, e: Event)
    requires Numbered(Frames(s), GivenOut(s.log))
    requires t.saved == s.saved && t.log == s.log + [e]
    requires t.info.tag == s.info.tag && t.info.steps == s.info.steps + 1
    requires !e.Header? && e.number == Next(s.info)
    ensures Numbered(Frames(t), GivenOut(t.log))
  {
    LogAppend(s.log, e);
    GiveOut(s.saved, s.info, t.info, GivenOut(s.log));
  }

  lemma {:induction false} NextAfter(f: Info, g: Info)
    requires g.tag == f.tag && g.steps == f.steps + 1
    ensures Less(Next(f), Next(g))
  {
    LessUnder(f.tag, f.steps + 1, [], g.steps + 1);
    assert Next(f) + [] == Next(f);
  }

  lemma {:induction false} PostConserved(s: State, success: bool, desc: string)
    requires Conserved(s)
    ensures Conserved(PostResult(s, success, desc))
  {
  }

  lemma {:induction false} PostInOrder(s: State, success: bool, desc: string)
    requires InOrder(Printed(s.log), s.info)
    ensures var t := PostResult(s, success, desc);
            InOrder(Printed(t.log), t.info) && ([] in Printed(t.log) ==> [] in Printed(s.log))
  {
    var t := PostResult(s, success, desc);
    LogAppend(s.log, t.log[|s.log|]);
    NextAfter(s.info, t.info);
    PrintNext(Printed(s.log), Next(s.info), t.info);
  }

  lemma {:induction false} PostKeeps(s: State, success: bool, desc: string)
    requires Inv(s)
    ensures Inv(PostResult(s, success, desc))
  {
    var t := PostResult(s, success, desc);
    PostNumbered(s, t, t.log[|s.log|]);
    PostConserved(s, success, desc);
    PostInOrder(s, success, desc);
    assert BaseTag(t) == BaseTag(s);
  }

  lemma {:induction false} PushConserved(s: State, path: Path)
    requires Conserved(s)
    ensures Conserved(PushExecInfo(s, path))
  {
  }

  lemma {:induction false} PushNumbered(s: State, path: Path)
    requires Numbered(Frames(s), GivenOut(s.log))
    ensures var t := PushExecInfo(s, path); Numbered(Frames(t), GivenOut(t.log))
  {
    var t := PushExecInfo(s, path);
    var parent := t.saved[|s.saved|];
    PostNumbered(s, s.(info := parent, log := t.log), t.log[|s.log|]);
    LogAppend(s.log, t.log[|s.log|]);
    OpenFrame(t.saved, t.info, GivenOut(t.log));
  }

  lemma {:induction false} PushInOrder(s: State, path: Path)
    requires InOrder(Printed(s.log), s.info)
    ensures var t := PushExecInfo(s, path);
            Printed(t.log) == Printed(s.log) && InOrder(Printed(t.log), t.info) && HeaderDue(t)
  {
    var t, n := PushExecInfo(s, path), Next(s.info);
    assert t.info == Info(n, path, 0, 0, 0) && t.log == s.log + [Opened(n)];
    LogAppend(s.log, Opened(n));
    LessExtended(n, 1);
    AllLessWeaken(Printed(s.log), n, Next(t.info));
  }

  lemma {:induction false} PushKeeps(s: State, path: Path)
    requires Inv(s)
    ensures Inv(PushExecInfo(s, path)) && Inv(PushExecInfo(s, path).(inSection := true))
    ensures HeaderDue(PushExecInfo(s, path))
  {
    var t := PushExecInfo(s, path);
    PushNumbered(s, path);
    PushConserved(s, path);
    PushInOrder(s, path);
    assert BaseTag(t) == BaseTag(s);
    SectionFlag(t);
  }

  lemma {:induction false} SectionFlag(s: State)
    requires Inv(s) && s.saved != []
    ensures Inv(s.(inSection := true))
  {
  }

  lemma {:induction false} EndSectionConserved(s: State)
    requires Conserved(s) && s.saved != []
    ensures Conserved(EndSection(s))
  {
    var t := EndSection(s);
    var n := |s.saved| - 1;
    assert s.saved == t.saved + [s.saved[n]];
    forall b
      ensures Counted(Frames(t), b) == Posted(t.log, b)
    {
      CountedAppend(s.saved, s.info, b);
      CountedAppend(t.saved, s.saved[n], b);
      CountedAppend(t.saved, t.info, b);
      assert Counted(Frames(s), b) == Posted(s.log, b);
    }
  }

  lemma {:induction false} EndSectionNumbered(s: State)
    requires Numbered(Frames(s), GivenOut(s.log)) && s.saved != []
    ensures var t := EndSection(s); Numbered(Frames(t), GivenOut(t.log)) && Less(Next(s.info), Next(t.info))
  {
    var t := EndSection(s);
    var n := |s.saved| - 1;
    assert Frames(s) == t.saved + [s.saved[n], s.info];
    CloseFrame(t.saved, s.saved[n], s.info, t.info, GivenOut(s.log));
  }

  lemma {:induction false} EndSectionKeeps(s: State)
    requires Inv(s) && s.saved != []
    ensures Inv(EndSection(s))
  {
    EndSectionConserved(s);
    EndSectionNumbered(s);
    PrintedLater(Printed(s.log), s.info, EndSection(s).info);
    assert BaseTag(EndSection(s)) == BaseTag(s);
  }

  lemma {:induction false} PathConserved(s: State, path: Path)
    requires Conserved(s)
    ensures Conserved(SetPath(s, path))
  {
    var t := SetPath(s, path);
    forall b
      ensures Counted(Frames(t), b) == Posted(t.log, b)
    {
      CountedAppend(s.saved, s.info, b);
      CountedAppend(s.saved, t.info, b);
      assert Counted(Frames(s), b) == Posted(s.log, b);
    }
  }

  lemma {:induction false} PathNumbered(s: State, path: Path)
    requires Numbered(Frames(s), GivenOut(s.log))
    ensures Numbered(Frames(SetPath(s, path)), GivenOut(s.log))
  {
    RenamedNumbered(Frames(s), Frames(SetPath(s, path)), GivenOut(s.log));
  }

  /** Paths and totals do not matter for numbering. */
  lemma {:induction false} RenamedNumbered(f: seq<Info>, g: seq<Info>, ns: seq<Number>)
    requires Numbered(f, ns) && |g| == |f|
    requires forall i :: 0 <= i < |f| ==> g[i].tag == f[i].tag && g[i].steps == f[i].steps
    ensures Numbered(g, ns)
  {
    forall i | 0 <= i < |g| - 1
      ensures g[i + 1].tag == g[i].tag + [g[i].steps]
    {
      assert f[i + 1].tag == f[i].tag + [f[i].steps];
    }
    forall i | 0 <= i < |g|
      ensures Under(ns, g[i].tag) == UpTo(g[i].steps)
    {
      assert Under(ns, f[i].tag) == UpTo(f[i].steps);
    }
  }

  lemma {:induction false} PathKeeps(s: State, path: Path)
    requires Inv(s)
    ensures Inv(SetPath(s, path))
  {
    PathConserved(s, path);
    PathNumbered(s, path);
    assert BaseTag(SetPath(s, path)) == BaseTag(s);
  }

  lemma {:induction false} HeaderKeeps(s: State, text: string)
    requires Inv(s) && HeaderDue(s)
    ensures Inv(PrintHeader(s, text))
  {
    LogAppend(s.log, Header(s.info.tag, text));
    LessExtended(s.info.tag, s.info.steps + 1);
    TagLengths(Frames(s), 0, |s.saved|);
    PrintNext(Printed(s.log), s.info.tag, s.info);
    assert Frames(PrintHeader(s, text)) == Frames(s);
    forall b
      ensures Counted(Frames(s), b) == Posted(PrintHeader(s, text).log, b)
    {
      assert Counted(Frames(s), b) == Posted(s.log, b);
    }
  }

  lemma {:induction false} EndOpenSectionKeeps(s: State)
    requires Inv(s)
    ensures Inv(EndOpenSection(s))
  {
    if s.inSection {
      EndSectionKeeps(s);
    }
  }

  lemma {:induction false} SectionKeeps(s: State, title: string)
    requires Inv(s)
    ensures Inv(StartSection(s, title))
  {
    EndOpenSectionKeeps(s);
    PushKeeps(EndOpenSection(s), s.info.path);
    HeaderKeeps(PushExecInfo(EndOpenSection(s), s.info.path).(inSection := true), title);
  }

  lemma {:induction false} EnterKeeps(s: State, path: Path, newSection: bool)
    requires Inv(s)
    ensures Inv(Enter(s, path, newSection)) && (newSection ==> HeaderDue(Enter(s, path, newSection)))
  {
    if newSection {
      EndOpenSectionKeeps(s);
      PushKeeps(EndOpenSection(s), path);
    } else {
      PathKeeps(s, path);
    }
  }

  lemma {:induction false} LeaveKeeps(s: State, home: Path, newSection: bool)
    requires Inv(s) && (newSection ==> s.Below() != [])
    ensures Inv(Leave(s, home, newSection))
  {
    if newSection {
      EndOpenSectionKeeps(s);
      EndSectionKeeps(EndOpenSection(s));
    } else {
      PathKeeps(s, home);
    }
  }

  // ---------- every reachable state ----------

  /** Over `includes` running section-creating includes the stack holds the base frame, one
      frame for each of them, and one more exactly when a section is open. */
  ghost predicate Sound(p: Point) {
    && Inv(p.state)
    && |p.state.saved| == p.includes + if p.state.inSection then 1 else 0
  }

  ghost predicate AllSound(ps: seq<Point>) {
    forall p :: p in ps ==> Sound(p)
  }

  lemma {:induction false} CmdsSound(args: Args, cmds: seq<Cmd>, s: State, file: Path, includes: nat)
    requires Inv(s) && |s.Below()| == includes
    ensures Inv(ExecCmds(args, cmds, s).state)
    ensures AllSound(CmdsPoints(args, cmds, s, file, includes))
    decreases cmds
  {
    if cmds != [] {
      CmdSound(args, cmds[0], s, includes);
      var r := ExecCmd(args, cmds[0], s);
      if r.outcome.Done? {
        CmdsSound(args, cmds[1..], r.state, file, includes);
      }
    }
  }

  lemma {:induction false} CmdSound(args: Args, c: Cmd, s: State, includes: nat)
    requires Inv(s) && |s.Below()| == includes
    ensures Inv(ExecCmd(args, c, s).state)
    ensures AllSound(CmdPoints(args, c, s, includes))
    decreases c
  {
    match c
    case Test(success, desc, _) =>
      PostKeeps(s, success, desc);
    case Match(success, desc, _) =>
      PostKeeps(s, success, desc);
    case Section(title) =>
      SectionKeeps(s, title);
    case Include(pathname, script, newSection) =>
      IncludedSound(args, Join(s.info.path, pathname), script, newSection, s, includes);
    case Raise(_) =>
    case AskCli(_) =>
  }

  lemma {:induction false} EnterDepth(s: State, path: Path, newSection: bool)
    requires s.WellFormed()
    ensures |Enter(s, path, newSection).Below()| == |s.Below()| + if newSection then 1 else 0
  {
  }

  lemma {:induction false} IncludedSound(args: Args, path: Path, script: Script, newSection: bool,
                                         s: State, includes: nat)
    requires Inv(s) && |s.Below()| == includes
    ensures Inv(Included(args, path, script, newSection, s).state)
    ensures AllSound(IncludedPoints(args, path, script, newSection, s, includes))
    decreases script, 1
  {
    var t := Enter(s, path, newSection);
    var depth := includes + if newSection then 1 else 0;
    EnterKeeps(s, path, newSection);
    EnterDepth(s, path, newSection);
    ScriptSound(args, script, t, newSection, path, depth);
    var r := ExecScript(args, script, t, newSection);
    assert r.state.Below() == t.Below();
    LeaveKeeps(r.state, s.info.path, newSection);
    assert Included(args, path, script, newSection, s).state == Leave(r.state, s.info.path, newSection);
  }

  lemma {:induction false} ScriptSound(args: Args, script: Script, s: State, printHeader: bool,
                                       file: Path, includes: nat)
    requires Inv(s) && |s.Below()| == includes && (printHeader ==> HeaderDue(s))
    ensures Inv(ExecScript(args, script, s, printHeader).state)
    ensures AllSound(ScriptPoints(args, script, s, printHeader, file, includes))
    decreases script, 0
  {
    match script
    case Unloadable(_) =>
    case Script(doc, body) =>
      if printHeader {
        HeaderKeeps(s, Title(doc, s.info.path));
      }
      CmdsSound(args, body, Begin(script, s, printHeader), file, includes);
  }

  lemma {:induction false} InitialInv(tag: Number, path: Path)
    ensures Inv(Initial(tag, path)) && HeaderDue(Initial(tag, path))
  {
    var s := Initial(tag, path);
    CountedAppend([], s.info, true);
    CountedAppend([], s.info, false);
    assert Frames(s) == [] + [s.info];
  }

  /** Every state in which a script makes a call is sound. */
  lemma {:induction false} RunIsSound(args: Args, script: Script, tag: Number, path: Path)
    ensures AllSound(ScriptPoints(args, script, Initial(tag, path), true, path, 0))
  {
    InitialInv(tag, path);
    ScriptSound(args, script, Initial(tag, path), true, path, 0);
  }

  /** However the run ends, no frame is left over, the base frame's totals are the results
      posted and the numbers given out increase strictly, without a gap under any tag. */
  lemma {:induction false} RunEndsSound(args: Args, script: Script, tag: Number, path: Path)
    ensures var t := Final(args, script, Initial(tag, path));
            && t.saved == [] && !t.inSection && t.info.tag == tag
            && t.info.passed == Posted(t.log, true)
            && t.info.failed == Posted(t.log, false)
            && Increasing(GivenOut(t.log))
            && GapFree(GivenOut(t.log))
  {
    var s := Initial(tag, path);
    InitialInv(tag, path);
    ScriptSound(args, script, s, true, path, 0);
    var t := Final(args, script, s);
    EndOpenSectionKeeps(ExecScript(args, script, s, true).state);
    CountedAppend([], t.info, true);
    CountedAppend([], t.info, false);
    assert Frames(t) == [] + [t.info];
    assert Counted(Frames(t), true) == Posted(t.log, true);
    assert Counted(Frames(t), false) == Posted(t.log, false);
  }

  /** The numbers of the lines of the results log, headers and results, increase strictly, and so
      no two lines show the same number. */
  lemma {:induction false} PrintedNumbersDiffer(args: Args, script: Script, tag: Number, path: Path)
    requires tag != []
    ensures var ns := Printed(Final(args, script, Initial(tag, path)).log);
            && Increasing(ns)
            && (forall i :: 0 <= i < |ns| ==> ns[i] != [])
            && (forall i, j :: 0 <= i < j < |ns| ==> Dotted(ns[i]) != Dotted(ns[j]))
  {
    var s := Initial(tag, path);
    InitialInv(tag, path);
    ScriptSound(args, script, s, true, path, 0);
    EndOpenSectionKeeps(ExecScript(args, script, s, true).state);
    var log := Final(args, script, s).log;
    RunEndsSound(args, script, tag, path);
    OrderedDiffer(Printed(log));
  }

  /** Increasing numbers of which the first is not empty are printed differently. */
  lemma {:induction false} OrderedDiffer(ns: seq<Number>)
    requires Increasing(ns) && [] !in ns
    ensures forall i :: 0 <= i < |ns| ==> ns[i] != []
    ensures forall i, j :: 0 <= i < j < |ns| ==> Dotted(ns[i]) != Dotted(ns[j])
  {
    forall i | 0 <= i < |ns|
      ensures ns[i] != []
    {
      assert ns[i] in ns;
    }
    IncreasingDistinct(ns);
    forall i, j | 0 <= i < j < |ns|
      ensures Dotted(ns[i]) != Dotted(ns[j])
    {
      if Dotted(ns[i]) == Dotted(ns[j]) {
        DottedInjective(ns[i], ns[j]);
      }
    }
  }

  /** `execute` reports exactly the results posted unless the CLI exception escapes. */
  lemma {:induction false} ReportIsExact(args: Args, script: Script, tag: Number, path: Path)
    ensures var s := Initial(tag, path);
            var log := Final(args, script, s).log;
            match Execute(args, script, s)
            case Totals(passed, failed, outcome) =>
              passed == Posted(log, true) && failed == Posted(log, false) && !outcome.Cli?
            case Escaped(_) =>
              ExecScript(args, script, s, true).outcome.Cli?
  {
    RunEndsSound(args, script, tag, path);
  }
}
