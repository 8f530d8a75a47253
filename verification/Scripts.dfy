/** Mutest scripts as data (munet/mutest/userapi.py).

    A script is the tree of API calls it makes when it runs; an `include` carries
    the script that opening its file yields. */
module Scripts {

  /** An absolute path: the directories from the root, then the file name. */
  datatype Path = Path(dirs: seq<string>, name: string)

  /** The argument of `include`, absolute or relative. */
  datatype Pathname = Pathname(absolute: bool, dirs: seq<string>, name: string)

  /** `current.parent.joinpath(p)`. */
  function Join(current: Path, p: Pathname): Path {
    Path(if p.absolute then p.dirs else current.dirs + p.dirs, p.name)
  }

  /** What a caught exception was: raised by a script, or a ScriptError around another one. */
  datatype Fault = Raised(what: string) | ScriptError(cause: Fault)

  /** How a call, or a whole script, ends. */
  datatype Outcome = Done | Failed(fault: Fault) | Cli(desc: string)

  /** What the user does at the two pause prompts one step can bring up: true is "cli". */
  datatype Answers = Answers(onPause: bool, onError: bool)

  /** The command line options `act_on_result` looks at. */
  datatype Args = Args(pause: bool, cliOnError: bool, pauseOnError: bool)

  datatype Cmd =
    | Test(success: bool, desc: string, answers: Answers)   // test_step: always posts a result
    | Match(success: bool, desc: string, answers: Answers)  // match_step, wait_step and the json forms
    | Section(title: string)
    | Include(pathname: Pathname, script: Script, newSection: bool)
    | Raise(fault: Fault)                                   // the script raises an Exception
    | AskCli(desc: string)                                  // CLIOnErrorError, e.g. from pause()

  datatype Script =
    | Script(doc: string, body: seq<Cmd>)
    | Unloadable(cause: Fault)  // open() or compiling the text fails

  /** The exception, if any, with which a step ends after its result is known. */
  function ActOnResult(args: Args, success: bool, desc: string, answers: Answers): Outcome {
    if args.pause && answers.onPause then
      Cli("")
    else if !args.pause && (success || desc == "") then
      Done
    else if args.cliOnError then
      Cli(desc)
    else if args.pauseOnError && answers.onError then
      Cli("")
    else
      Done
  }

  /** A passing step whose prompts are answered without "cli" still enters the CLI when both
      options are given: after a pause the result is not looked at again. */
  lemma {:induction false} PassEntersCliIff(args: Args, desc: string)
    ensures ActOnResult(args, true, desc, Answers(false, false)).Cli? <==> args.pause && args.cliOnError
  {
  }

  /** A step ends its script exactly when the CLI is asked for at the first prompt, or the step is
      a described failure, or any step under pause, and the CLI is asked for on errors. */
  lemma {:induction false} StepEntersCliIff(args: Args, success: bool, desc: string, answers: Answers)
    ensures var o := ActOnResult(args, success, desc, answers);
            var first := args.pause && answers.onPause;
            var onError := args.cliOnError || (args.pauseOnError && answers.onError);
            && (o != Done <==> first || (onError && (args.pause || (!success && desc != ""))))
            && (o != Done ==> o == Cli(if args.cliOnError && !first then desc else ""))
  {
  }

  /** The exception `include` raises for the way its script ended. */
  function Rethrow(o: Outcome): Outcome {
    match o
    case Done => Done
    case Failed(fault) => Failed(ScriptError(fault))
    case Cli(_) => Cli("")
  }

  /** The header line of a script: its docstring title, or its file name. */
  function Title(doc: string, path: Path): string {
    if doc != "" then doc else "Test from file: " + path.name
  }
}
