/** The info route: `GET ?q=` hands the query to yt-dlp for its metadata and
    returns yt-dlp's JSON output as it is. */
module Info {
  import opened Wrappers
  import opened Js
  import opened Process
  import opened Http

  const MissingQuery: Response := Json(400, Error("Missing q", None))

  /** The only call the handler makes for query `q`. */
  function Call(cwd: string, q: string): (string, seq<string>, Option<string>) {
    (BinPath(cwd, "yt-dlp"), MetadataArgs(q), None)
  }

  /** `GET(req)` with `q = searchParams.get('q')`: 400 without a query; 500 with
      yt-dlp's diagnostics when it exits non-zero; otherwise its standard output
      verbatim as a JSON response. */
  function Get(q: Option<string>, cwd: string, runner: Runner): (r: Response)
    ensures !Truthy(q) ==> r == MissingQuery
    ensures r.Text? ==>
              && Truthy(q) && r.status == 200 && r.contentType == "application/json"
              && r.text == runner(Call(cwd, q.value).0, Call(cwd, q.value).1, Call(cwd, q.value).2).stdout
    ensures r.Json? && r.status == 500 ==> r.body.Error? && r.body.error == "yt-dlp error" && r.body.details.Some?
    ensures !r.Thrown?
  {
    if !Truthy(q) then MissingQuery
    else
      var res := Run(runner, BinPath(cwd, "yt-dlp"), MetadataArgs(q.value), None);
      if res.code != 0 then Json(500, Error("yt-dlp error", Some(Or(res.stderr, res.stdout))))
      else Text(200, res.stdout, "application/json")
  }

  /** Without a query no process runs: the response is the same whatever the runner does. */
  lemma NoQueryRunsNothing(q: Option<string>, cwd: string, runner1: Runner, runner2: Runner)
    requires !Truthy(q)
    ensures Get(q, cwd, runner1) == Get(q, cwd, runner2) == MissingQuery
  {
  }

  /** With a query, the response depends on nothing but the one metadata call
      `yt-dlp --dump-single-json --no-warnings q` without a working directory. */
  lemma OnlyTheMetadataCall(q: string, cwd: string, runner1: Runner, runner2: Runner)
    requires q != ""
    requires runner1(BinPath(cwd, "yt-dlp"), ["--dump-single-json", "--no-warnings", q], None)
          == runner2(BinPath(cwd, "yt-dlp"), ["--dump-single-json", "--no-warnings", q], None)
    ensures Get(Some(q), cwd, runner1) == Get(Some(q), cwd, runner2)
  {
  }

  /** The exit code decides between error and success, and a `null` exit code
      (the child ended on a signal) counts as success; on failure the details are
      stderr, or stdout when stderr is empty. */
  lemma ExitCodeDecides(q: string, cwd: string, runner: Runner)
    requires q != ""
    ensures var c := runner(BinPath(cwd, "yt-dlp"), MetadataArgs(q), None);
      && (c.code in {None, Some(0)} ==> Get(Some(q), cwd, runner) == Text(200, c.stdout, "application/json"))
      && (c.code !in {None, Some(0)} ==>
            Get(Some(q), cwd, runner) == Json(500, Error("yt-dlp error", Some(if c.stderr != "" then c.stderr else c.stdout))))
  {
  }
}
