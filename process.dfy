/** The `run` helper both routes use to start yt-dlp, abstracted to its result,
    and the paths and arguments the routes pass to it. */
module Process {
  import opened Wrappers

  /** What the child's `close` event reports: the output accumulated from each
      stream, and an exit code that is `null` when the child ended on a signal. */
  datatype Completion = Completion(stdout: string, stderr: string, code: Option<int>)

  /** The value `run` resolves with. */
  datatype ProcessResult = ProcessResult(stdout: string, stderr: string, code: int)

  /** Starting an external program: command, arguments and working directory
      (`None` when `cwd` is left undefined) to how it completed. */
  type Runner = (string, seq<string>, Option<string>) -> Completion

  /** `run(cmd, args, cwd)`: the accumulated streams, with a `null` exit code read as 0. */
  function Run(runner: Runner, cmd: string, args: seq<string>, cwd: Option<string>): (r: ProcessResult)
    ensures r.stdout == runner(cmd, args, cwd).stdout && r.stderr == runner(cmd, args, cwd).stderr
    ensures r.code == 0 <==> runner(cmd, args, cwd).code in {None, Some(0)}
  {
    var c := runner(cmd, args, cwd);
    ProcessResult(c.stdout, c.stderr, if c.code.Some? then c.code.value else 0)
  }

  /** `path.join(process.cwd(), 'bin', name)`, for a working directory given
      without a trailing separator. */
  function BinPath(cwd: string, name: string): string {
    cwd + "/bin/" + name
  }

  /** The yt-dlp arguments that print the metadata of `locator` as one JSON document. */
  function MetadataArgs(locator: string): seq<string> {
    ["--dump-single-json", "--no-warnings", locator]
  }

  /** The binaries sit in `bin` under the working directory, and different
      names give different paths. */
  lemma BinPathLayout(cwd: string, name: string, other: string)
    ensures var p := BinPath(cwd, name);
      && p[..|cwd| + 5] == cwd + "/bin/" && p[|cwd| + 5..] == name
      && (other != name ==> BinPath(cwd, other) != p)
  {
    var p := BinPath(cwd, name);
    assert p[..|cwd| + 5] == cwd + "/bin/";
    assert p[|cwd| + 5..] == name;
    if other != name {
      assert BinPath(cwd, other)[|cwd| + 5..] == other;
    }
  }

  /** The metadata call takes the two options and then the locator as the last
      argument, with no `--` before it; different locators give different calls. */
  lemma MetadataArgsLayout(locator: string, other: string)
    ensures var args := MetadataArgs(locator);
      && |args| == 3 && args[2] == locator
      && args[0] == "--dump-single-json" && args[1] == "--no-warnings"
      && (other != locator ==> MetadataArgs(other) != args)
  {
    if other != locator {
      assert MetadataArgs(other)[2] != MetadataArgs(locator)[2];
    }
  }
}
