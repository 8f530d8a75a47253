/** `TestCase` and `TestCaseInfo` of munet/mutest/userapi.py as classes. Every method is proved
    against the state function of the same name in `TestMachine`. */
module TestCases {
  import opened Scripts
  import opened TestMachine

  class TestCaseInfo {
    const tag: Number
    var path: Path
    var steps: nat
    var passed: nat
    var failed: nat

    constructor (tag: Number, path: Path)
      ensures Value() == Info(tag, path, 0, 0, 0)
    {
      this.tag, this.path := tag, path;
      steps, passed, failed := 0, 0, 0;
    }

    ghost function Value(): Info
      reads this
    {
      Info(tag, path, steps, passed, failed)
    }
  }

  ghost function Values(frames: seq<TestCaseInfo>): (r: seq<Info>)
    reads frames
    ensures |r| == |frames|
  {
    seq(|frames|, i requires 0 <= i < |frames| reads frames => frames[i].Value())
  }

  /** A section-creating include, step by step. */
  lemma {:induction false} IncludedIs(args: Args, path: Path, script: Script, s: State)
    requires s.WellFormed()
    ensures var r := TestMachine.ExecScript(args, script, TestMachine.StartExecSection(s, path), true);
            && r.state.Below() != []
            && (forall home ::
                  Included(args, path, script, true, s) == Run(Leave(r.state, home, true), Rethrow(r.outcome)))
  {
  }

  class TestCase {
    const args: Args
    var info: TestCaseInfo
    var saved: seq<TestCaseInfo>
    var inSection: bool
    var log: seq<Event>

    constructor (args: Args, tag: Number, path: Path)
      ensures Valid() && fresh(info)
      ensures this.args == args && Abs() == Initial(tag, path)
    {
      this.args := args;
      info := new TestCaseInfo(tag, path);
      saved, inSection, log := [], false, [];
    }

    /** The frames on the stack are different objects. */
    ghost predicate Valid()
      reads this
    {
      && info !in saved
      && (forall i, j :: 0 <= i < j < |saved| ==> saved[i] != saved[j])
      && (inSection ==> saved != [])
    }

    ghost function Abs(): State
      reads this, info, saved
    {
      State(info.Value(), Values(saved), inSection, log)
    }

    /** The frame objects that stay when an open section is ended; the base frame is the last. */
    ghost function Stem(): seq<TestCaseInfo>
      reads this
    {
      if inSection then saved else saved + [info]
    }

    /** The frame of every method: new frames are new objects, and the stem stays the same objects. */
    twostate predicate Kept()
      reads this
    {
      && Valid()
      && Stem() == old(Stem())
      && (info in Stem() || info == old(info) || fresh(info))
    }

    method PushExecInfo(path: Path)
      requires Valid()
      modifies this, info
      ensures Valid() && fresh(info) && saved == old(saved) + [old(info)]
      ensures inSection == old(inSection)
      ensures Abs() == TestMachine.PushExecInfo(old(Abs()), path)
    {
      info.steps := info.steps + 1;
      saved := saved + [info];
      var tag := info.tag + [info.steps];
      info := new TestCaseInfo(tag, path);
      log := log + [Opened(tag)];
      assert Values(saved) == old(Values(saved)) + [old(info.Value()).(steps := old(info.steps) + 1)];
    }

    method PopExecInfo() returns (finished: TestCaseInfo)
      requires Valid() && saved != []
      modifies this
      ensures finished == old(info) && info == old(saved)[|old(saved)| - 1]
      ensures saved == old(saved)[..|old(saved)| - 1]
      ensures inSection == old(inSection) && log == old(log)
    {
      finished := info;
      info := saved[|saved| - 1];
      saved := saved[..|saved| - 1];
    }

    method EndSection()
      requires Valid() && saved != []
      modifies this, info, Stem()
      ensures Valid() && info == old(saved)[|old(saved)| - 1]
      ensures saved == old(saved)[..|old(saved)| - 1] && !inSection
      ensures Abs() == TestMachine.EndSection(old(Abs()))
    {
      var finished := PopExecInfo();
      info.passed := info.passed + finished.passed;
      info.failed := info.failed + finished.failed;
      inSection := false;
      assert Values(saved) == old(Values(saved))[..|saved|];
    }

    /** `if self.__in_section: self.__end_section()`, the test made wherever a section can end. */
    method EndOpenSection()
      requires Valid()
      modifies this, info, Stem()
      ensures Kept() && !inSection
      ensures Abs() == TestMachine.EndOpenSection(old(Abs()))
    {
      if inSection {
        EndSection();
      }
    }

    method StartExecSection(path: Path)
      requires Valid()
      modifies this, info, Stem()
      ensures Valid() && !inSection && fresh(info) && saved == old(Stem())
      ensures Abs() == TestMachine.StartExecSection(old(Abs()), path)
    {
      EndOpenSection();
      PushExecInfo(path);
      assert !inSection;
    }

    method StartSection(title: string)
      requires Valid()
      modifies this, info, Stem()
      ensures Kept()
      ensures Abs() == TestMachine.StartSection(old(Abs()), title)
    {
      var path := info.path;
      EndOpenSection();
      PushExecInfo(path);
      inSection := true;
      PrintHeader(title);
    }

    method PrintHeader(text: string)
      requires Valid()
      modifies this`log
      ensures Valid()
      ensures Abs() == TestMachine.PrintHeader(old(Abs()), text)
    {
      log := log + [Header(info.tag, text)];
    }

    method PostResult(success: bool, desc: string)
      requires Valid()
      modifies this`log, info
      ensures Kept()
      ensures Abs() == TestMachine.PostResult(old(Abs()), success, desc)
    {
      if success {
        info.passed := info.passed + 1;
      } else {
        info.failed := info.failed + 1;
      }
      info.steps := info.steps + 1;
      log := log + [Result(info.tag + [info.steps], success, desc)];
      assert Values(saved) == old(Values(saved));
    }

    method SetPath(path: Path)
      requires Valid()
      modifies info
      ensures Kept()
      ensures Abs() == TestMachine.SetPath(old(Abs()), path)
    {
      info.path := path;
      assert Values(saved) == old(Values(saved));
    }

    method Include(pathname: Pathname, script: Script, newSection: bool) returns (outcome: Outcome)
      requires Valid()
      modifies this, info, Stem()
      ensures Kept()
      ensures Run(Abs(), outcome) == Included(args, Join(old(info.path), pathname), script, newSection, old(Abs()))
      decreases script, 3
    {
      var path := Join(info.path, pathname);
      if newSection {
        outcome := IncludeSection(path, script);
      } else {
        outcome := IncludeInline(path, script);
      }
    }

    // The two flows through `include`, for new_section false and true.

    method IncludeInline(path: Path, script: Script) returns (outcome: Outcome)
      requires Valid()
      modifies this, info, Stem()
      ensures Kept()
      ensures Run(Abs(), outcome) == Included(args, path, script, false, old(Abs()))
      decreases script, 1
    {
      var home := info.path;
      SetPath(path);
      var e := ExecScript(script, false);
      SetPath(home);
      outcome := Rethrow(e);
    }

    method IncludeSection(path: Path, script: Script) returns (outcome: Outcome)
      requires Valid()
      modifies this, info, Stem()
      ensures Kept()
      ensures Run(Abs(), outcome) == Included(args, path, script, true, old(Abs()))
      decreases script, 2
    {
      IncludedIs(args, path, script, Abs());
      var ours, e := EnterSection(path, script);
      LeaveSection(ours);
      outcome := Rethrow(e);
    }

    method EnterSection(path: Path, script: Script) returns (ours: TestCaseInfo, e: Outcome)
      requires Valid()
      modifies this, info, Stem()
      ensures Valid() && Stem() == old(Stem()) + [ours] && fresh(ours) && (info == ours || fresh(info))
      ensures Run(Abs(), e)
              == TestMachine.ExecScript(args, script, TestMachine.StartExecSection(old(Abs()), path), true)
      decreases script, 1
    {
      StartExecSection(path);
      ours := info;
      e := ExecScript(script, true);
    }

    /** The end of a section-creating include whose frame is `ours`. */
    method LeaveSection(ours: TestCaseInfo)
      requires Valid() && |Stem()| > 1 && ours == Stem()[|Stem()| - 1]
      modifies this, info, Stem()
      ensures Valid() && Stem() == old(Stem())[..|old(Stem())| - 1] && !inSection
      ensures Abs() == Leave(old(Abs()), info.path, true)
    {
      EndOpenSection();
      assert ours == info;  // the source's own assertion, on object identity
      EndSection();
    }

    method Call(c: Cmd) returns (outcome: Outcome)
      requires Valid()
      modifies this, info, Stem()
      ensures Kept()
      ensures Run(Abs(), outcome) == ExecCmd(args, c, old(Abs()))
      decreases c, 4
    {
      match c
      case Test(success, desc, answers) =>
        PostResult(success, desc);
        outcome := ActOnResult(args, success, desc, answers);
      case Match(success, desc, answers) =>
        if desc != "" {
          PostResult(success, desc);
        }
        outcome := ActOnResult(args, success, desc, answers);
      case Section(title) =>
        StartSection(title);
        outcome := Done;
      case Include(pathname, script, newSection) =>
        outcome := Include(pathname, script, newSection);
      case Raise(fault) =>
        outcome := Failed(fault);
      case AskCli(desc) =>
        outcome := Cli(desc);
    }

    method ExecCalls(cmds: seq<Cmd>) returns (outcome: Outcome)
      requires Valid()
      modifies this, info, Stem()
      ensures Kept()
      ensures Run(Abs(), outcome) == ExecCmds(args, cmds, old(Abs()))
      decreases cmds
    {
      outcome := Done;
      if cmds != [] {
        outcome := Call(cmds[0]);
        if outcome.Done? {
          outcome := ExecCalls(cmds[1..]);
        }
      }
    }

    method ExecScript(script: Script, printHeader: bool) returns (outcome: Outcome)
      requires Valid()
      modifies this, info, Stem()
      ensures Kept()
      ensures Run(Abs(), outcome) == TestMachine.ExecScript(args, script, old(Abs()), printHeader)
      decreases script, 0
    {
      match script
      case Unloadable(cause) =>
        outcome := Failed(cause);
      case Script(doc, body) =>
        if printHeader {
          PrintHeader(Title(doc, info.path));
        }
        outcome := ExecCalls(body);
    }

    method EndTest() returns (passed: nat, failed: nat)
      requires Valid()
      modifies this, info, Stem()
      ensures Valid() && Abs() == TestMachine.EndOpenSection(old(Abs()))
      ensures passed == Abs().info.passed && failed == Abs().info.failed
    {
      EndOpenSection();
      passed, failed := info.passed, info.failed;
    }

    method Execute(script: Script) returns (report: Report)
      requires Valid()
      modifies this, info, Stem()
      ensures Valid()
      ensures Abs() == Final(args, script, old(Abs()))
      ensures report == TestMachine.Execute(args, script, old(Abs()))
    {
      var e := ExecScript(script, true);
      var passed, failed := EndTest();
      report := if e.Cli? then Escaped(e.desc) else Totals(passed, failed, e);
    }
  }
}
