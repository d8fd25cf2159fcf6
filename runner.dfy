/**
 * Running a path: resolve its command, tokenize it, split off the
 * program, launch it in the path's directory and classify the outcome.
 * Launching a process is not modelled; it is a parameter of `Run`.
 */
module Runner {
  import opened Wrappers
  import opened Resolver
  import opened Tokenizer
  import opened Strings

  const NoCommandMessage: string := "No matching run command found."
  const EmptyCommandMessage: string := "Empty command string"

  /** A program and the arguments it is started with. */
  datatype Invocation = Invocation(program: string, args: seq<string>)

  /** How a finished process ended: with an exit code, or killed by a signal. */
  datatype ExitStatus = Exited(code: int) | Signalled(signal: int) {
    /** Only an exit with code zero is a success. */
    predicate Success() {
      Exited? && code == 0
    }
  }

  /** What a finished process left behind, its streams already decoded. */
  datatype ProcessOutput = ProcessOutput(status: ExitStatus, stdout: string, stderr: string)

  /** Starting a process either fails with the system's message or yields its output. */
  datatype LaunchResult = Launched(output: ProcessOutput) | LaunchFailed(message: string)

  /** Starts `program` with `args` in directory `dir` and waits for it. */
  type Launcher = (string, seq<string>, string) -> LaunchResult

  /** The first token is the program and the rest, in order, its arguments. */
  function SplitProgram(tokens: seq<string>): (r: Result<Invocation, string>)
    ensures r.Failure? <==> tokens == []
    ensures r.Failure? ==> r.error == EmptyCommandMessage
    ensures r.Success? ==> [r.value.program] + r.value.args == tokens
  {
    if tokens == [] then Failure(EmptyCommandMessage)
    else Success(Invocation(tokens[0], tokens[1..]))
  }

  /** A successful exit yields standard output; any other ends in standard error. */
  function Classify(output: ProcessOutput): (r: Result<string, string>)
    ensures r.Success? <==> output.status == Exited(0)
    ensures r.Success? ==> r.value == output.stdout
    ensures r.Failure? ==> r.error == output.stderr
  {
    if output.status.Success() then Success(output.stdout) else Failure(output.stderr)
  }

  /** A launch failure ends the run with its message; a finished process is classified. */
  function Outcome(launched: LaunchResult): (r: Result<string, string>)
    ensures launched.LaunchFailed? ==> r == Failure(launched.message)
    ensures launched.Launched? ==> r == Classify(launched.output)
  {
    match launched
    case LaunchFailed(message) => Failure(message)
    case Launched(output) => Classify(output)
  }

  /**
   * Runs the command configured for `path`: fails with a fixed message
   * when none is configured or the command has no tokens; otherwise
   * launches the first token with the rest as arguments in the path's
   * directory.
   */
  method Run(config: RunnerConfig, path: PathInfo, launch: Launcher) returns (r: Result<string, string>)
    ensures CommandFor(config, path).None? ==> r == Failure(NoCommandMessage)
    ensures CommandFor(config, path).Some? && Tokens(CommandFor(config, path).value) == [] ==>
      r == Failure(EmptyCommandMessage)
    ensures CommandFor(config, path).Some? && Tokens(CommandFor(config, path).value) != [] ==>
      var tokens := Tokens(CommandFor(config, path).value);
      r == Outcome(launch(tokens[0], tokens[1..], DirText(path)))
  {
    var command := CommandFor(config, path);
    if command.None? {
      return Failure(NoCommandMessage);
    }
    var tokens := Tokenize(command.value);
    var split := SplitProgram(tokens);
    if split.Failure? {
      return Failure(split.error);
    }
    var launched := launch(split.value.program, split.value.args, DirText(path));
    r := Outcome(launched);
  }

  // ----- Scenarios -----

  /**
   * A `files` entry `python {path}` for `.py` runs the interpreter on the
   * path itself, whatever the `languages` map holds.
   */
  lemma PythonScenario(config: RunnerConfig, p: PathInfo)
    requires FileKey("py") in config.files && config.files[FileKey("py")] == "python " + PathPlaceholder
    requires p.extension == Some("py") && '{' !in p.text
    ensures CommandFor(config, p) == Some("python " + p.text)
  {
    assert Lower("py") == "py";
    var t := "python " + PathPlaceholder;
    assert ReplaceAll(t, PathPlaceholder, p.text) == "python " + p.text by {
      ReplaceLeadingMatch(PathPlaceholder, [], p.text);
      assert PathPlaceholder + [] == PathPlaceholder;
      assert ReplaceAll(PathPlaceholder, PathPlaceholder, p.text) == p.text;
      ReplaceAfterPlain("python ", PathPlaceholder, PathPlaceholder, p.text);
    }
    assert ReplaceAll("python " + p.text, DirPlaceholder, DirText(p)) == "python " + p.text by {
      assert forall c :: c in "python " + p.text ==> c in "python " || c in p.text;
      ReplaceMissingChar("python " + p.text, DirPlaceholder, '{', DirText(p));
    }
  }
}
