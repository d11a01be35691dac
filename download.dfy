/** The download route: `POST` with a body `{ url, format }` probes the locator
    with yt-dlp for its id and title, converts it to an audio file under /tmp
    named after them, and uploads that file to blob storage under a stable key. */
module Download {
  import opened Wrappers
  import opened Js
  import opened Process
  import opened Http
  import Sanitize

  type Bytes = seq<bv8>

  /** The two fields of the request body the handler reads; `undefined` and `null` are `None`. */
  datatype Request = Request(url: Option<string>, format: Option<string>)

  /** The probe document as `JSON.parse` returns it, reduced to what the handler
      reads: `null`, or an object with optional `entries`, `id` and `title`. */
  datatype Doc = Null | Object(entries: Option<seq<Doc>>, id: Option<string>, title: Option<string>)

  /** What the probe extracts for naming the artifact. */
  datatype Media = Media(id: string, title: string)

  /** The world the handler acts on: the process working directory, and the
      outcome of each external call it can make. */
  datatype Env = Env(
    cwd: string,
    access: string -> bool,                                  // fs.access succeeds
    run: Runner,                                             // spawning a child
    parse: string -> Result<Doc, string>,                   // JSON.parse, or the message it throws
    readFile: string -> Result<Bytes, string>,               // fs.readFile, or the message it throws
    put: (string, Bytes, string) -> Result<string, string>)  // blob put: key, data, content type to the public url

  /** The external calls, in the order the handler makes them. */
  datatype Effect =
    | AccessBinary(path: string)
    | RunProbe(cmd: string, args: seq<string>)
    | RunConvert(cmd: string, args: seq<string>, cwd: string)
    | ReadOutput(path: string)
    | PutBlob(key: string, data: Bytes, contentType: string)

  const MissingUrl: Response := Json(400, Error("Missing url", None))
  const MissingBinaries: Response := Json(500, Error("Faltan binarios (yt-dlp/ffmpeg) en ./bin. Revisa README.", None))
  const ConvertFailed: string := "Fallo yt-dlp"
  const UploadFailed: string := "Upload falló o archivo no encontrado"

  // ---------------------------------------------------------------------------
  // Format and content type

  /** `(format || 'flac').toLowerCase()`: never empty; `flac` when the format is
      absent or empty, otherwise the requested format in lower case. */
  function Format(format: Option<string>): (fmt: string)
    ensures fmt != ""
    ensures !Truthy(format) ==> fmt == "flac"
    ensures Truthy(format) ==> fmt == ToLower(format.value)
  {
    if Truthy(format) then ToLower(format.value) else "flac"
  }

  /** The format holds no letter A to Z, and under the model's A-to-Z mapping a
      requested format keeps its length. */
  lemma FormatLowerCase(format: Option<string>)
    ensures IsLower(Format(format))
    ensures Truthy(format) ==> |Format(format)| == |format.value|
  {
    if Truthy(format) {
      ToLowerSpec(format.value);
    }
  }

  /** No list of accepted formats is applied: every non-empty format without
      the letters A to Z is used as given. */
  lemma FormatNotWhitelisted(format: string)
    requires format != "" && IsLower(format)
    ensures Format(Some(format)) == format
  {
    ToLowerIdentity(format);
  }

  /** The upload's content type: mpeg for mp3, opus and wav for themselves, and
      flac for flac and every other format. */
  function ContentType(fmt: string): (ct: string)
    ensures ct == "audio/flac" <==> fmt !in {"mp3", "opus", "wav"}
    ensures fmt in {"flac", "opus", "wav"} ==> ct == "audio/" + fmt
    ensures fmt == "mp3" ==> ct == "audio/mpeg"
  {
    if fmt == "mp3" then "audio/mpeg"
    else if fmt == "opus" then "audio/opus"
    else if fmt == "wav" then "audio/wav"
    else "audio/flac"
  }

  // ---------------------------------------------------------------------------
  // Probe

  /** The document holds a non-empty `entries` whose first element is not null. */
  predicate UsableFirstEntry(doc: Doc) {
    doc.Object? && doc.entries.Some? && |doc.entries.value| > 0 && doc.entries.value[0] != Null
  }

  /** `json?.entries?.[0] ?? json`: the first entry of a search or playlist when
      there is one and it is not null, otherwise the document itself. */
  function SelectEntry(doc: Doc): (e: Doc)
    ensures UsableFirstEntry(doc) ==> e == doc.entries.value[0]
    ensures !UsableFirstEntry(doc) ==> e == doc
  {
    if UsableFirstEntry(doc) then doc.entries.value[0]
    else doc
  }

  /** `entry?.field || 'audio'` for a field read from `entry`. */
  function FieldOrAudio(entry: Doc, field: Option<string>): (v: string)
    ensures v != ""
    ensures entry.Object? && Truthy(field) ==> v == field.value
    ensures !(entry.Object? && Truthy(field)) ==> v == "audio"
  {
    if entry.Object? then Or(if field.Some? then field.value else "", "audio") else "audio"
  }

  /** The id and title of the selected entry, each defaulting to "audio". */
  function MediaOf(doc: Doc): (m: Media)
    ensures m.id != "" && m.title != ""
  {
    var e := SelectEntry(doc);
    Media(FieldOrAudio(e, if e.Object? then e.id else None), FieldOrAudio(e, if e.Object? then e.title else None))
  }

  /** Only the first entry of a collection matters: the document's own fields
      and every later entry are ignored. */
  lemma FirstEntryOnly(first: Doc, rest: seq<Doc>, id: Option<string>, title: Option<string>)
    requires first.Object?
    ensures MediaOf(Object(Some([first] + rest), id, title)) == MediaOf(Object(None, first.id, first.title))
  {
  }

  /** Without a usable first entry (no `entries`, an empty one, or a null first
      element) the document itself is read, with "audio" for an absent or empty field. */
  lemma DocumentWithoutEntries(entries: Option<seq<Doc>>, id: Option<string>, title: Option<string>)
    requires entries.None? || entries.value == [] || entries.value[0] == Null
    ensures MediaOf(Object(entries, id, title)) ==
              Media(if Truthy(id) then id.value else "audio", if Truthy(title) then title.value else "audio")
  {
  }

  /** A `null` document yields "audio" for both. */
  lemma NullDocument()
    ensures MediaOf(Null) == Media("audio", "audio")
  {
  }

  /** `probe(ytdlp, url)` after the child has run: a non-zero exit fails with
      stderr, else stdout, else a fixed message; otherwise the output is parsed
      (its parse error is the failure) and the media read from it. */
  function Probe(res: ProcessResult, parse: string -> Result<Doc, string>): (r: Result<Media, string>)
    ensures res.code != 0 ==> r.Failure? && r.error != ""
    ensures res.code != 0 && res.stderr != "" ==> r.error == res.stderr
    ensures res.code != 0 && res.stderr == "" && res.stdout != "" ==> r.error == res.stdout
    ensures res.code != 0 && res.stderr == "" && res.stdout == "" ==> r.error == "yt-dlp probe failed"
    ensures res.code == 0 && parse(res.stdout).Failure? ==> r == Failure(parse(res.stdout).error)
    ensures res.code == 0 && parse(res.stdout).Success? ==> r == Success(MediaOf(parse(res.stdout).value))
  {
    if res.code != 0 then Failure(Or(Or(res.stderr, res.stdout), "yt-dlp probe failed"))
    else match parse(res.stdout)
      case Failure(e) => Failure(e)
      case Success(doc) => Success(MediaOf(doc))
  }

  // ---------------------------------------------------------------------------
  // Names

  /** `sanitize(title + '.' + id)` with the default length. */
  function ArtifactBase(m: Media): (base: string)
    ensures |base| <= 200
  {
    Sanitize.SanitizeDefault(m.title + "." + m.id)
  }

  /** The base is never empty, and free of path separators and other reserved characters. */
  lemma ArtifactBaseShape(m: Media)
    ensures var base := ArtifactBase(m);
      && base != "" && Sanitize.NoReserved(base) && '/' !in base
  {
    var name := m.title + "." + m.id;
    StripDottedName(m.title, m.id);
    Sanitize.SanitizeEmptyIff(name, Sanitize.DefaultMaxLen);
    Sanitize.SanitizeShape(name, Sanitize.DefaultMaxLen);
    var base := ArtifactBase(m);
    assert forall i :: 0 <= i < |base| ==> base[i] != '/';
  }

  /** Stripping the reserved and whitespace characters from `title.id` keeps the
      dot between the stripped title and the stripped id, so the cleaned name is
      never empty. (The cut at 200 characters may still remove the dot and the id
      when the cleaned title is that long.) */
  lemma StripDottedName(title: string, id: string)
    ensures Sanitize.Strip(title + "." + id) == Sanitize.Strip(title) + "." + Sanitize.Strip(id)
  {
    var tail := "." + id;
    assert title + "." + id == title + tail;
    Sanitize.StripAppend(title, tail);
    assert tail[0] == '.' && tail[1..] == id;
    assert Sanitize.Strip(tail) == ['.'] + Sanitize.Strip(id);
  }

  /** The name the converted file gets: the base, a dot and the format. */
  function FileName(base: string, fmt: string): string {
    base + "." + fmt
  }

  /** yt-dlp's extension field, which it fills in with the extension of the file it writes. */
  const ExtField: string := "%(ext)s"

  /** The output template handed to yt-dlp: the base and a dot, with the extension left to yt-dlp. */
  function OutputTemplate(base: string): string {
    base + "." + ExtField
  }

  /** `path.join('/tmp', base + '.' + fmt)` */
  function OutputPath(base: string, fmt: string): string {
    "/tmp/" + FileName(base, fmt)
  }

  /** The blob key `audio/${base}.${fmt}`. */
  function BlobKey(base: string, fmt: string): string {
    "audio/" + FileName(base, fmt)
  }

  /** The conversion: extract the audio, convert it to `fmt` with the bundled
      ffmpeg, embed the thumbnail and the metadata, write it under `template`. */
  function ConvertArgs(fmt: string, ffmpeg: string, template: string, url: string): seq<string> {
    ["-x", "--audio-format", fmt, "--embed-thumbnail", "--add-metadata", "--ffmpeg-location", ffmpeg, "-o", template, url]
  }

  /** Filling in the template's extension field with `fmt` gives the name of the
      file the handler reads back and uploads. */
  lemma TemplateNamesOutput(base: string, fmt: string)
    ensures var t := OutputTemplate(base);
      && |t| == |base| + 1 + |ExtField| && t[|base| + 1..] == ExtField
      && t[..|base| + 1] + fmt == FileName(base, fmt)
      && "/tmp/" + t[..|base| + 1] + fmt == OutputPath(base, fmt)
  {
    assert OutputTemplate(base)[..|base| + 1] == base + ".";
  }

  /** The key lies in the `audio/` folder, the path in /tmp, both under the same
      file name, which has the format as its extension. */
  lemma KeyAndPathShareName(base: string, fmt: string)
    ensures var key := BlobKey(base, fmt);
      && |key| == 6 + |base| + 1 + |fmt|
      && key[..6] == "audio/" && key[|key| - |fmt| - 1..] == "." + fmt
      && OutputPath(base, fmt) == "/tmp/" + key[6..]
  {
    var key := BlobKey(base, fmt);
    assert key[6..] == FileName(base, fmt);
    assert key[|key| - |fmt| - 1..] == "." + fmt;
  }

  /** Each value of the conversion call follows the option it belongs to, the
      locator comes last, and the thumbnail and metadata are embedded. */
  lemma ConvertArgsLayout(fmt: string, ffmpeg: string, template: string, url: string)
    ensures var args := ConvertArgs(fmt, ffmpeg, template, url);
      && |args| == 10 && args[0] == "-x" && args[|args| - 1] == url
      && args[1] == "--audio-format" && args[2] == fmt
      && args[5] == "--ffmpeg-location" && args[6] == ffmpeg
      && args[7] == "-o" && args[8] == template
      && "--embed-thumbnail" in args && "--add-metadata" in args
  {
  }

  /** The blob key and the local path name the same file, a single path segment
      when the format holds no separator; so `path.join` adds nothing but the
      separator. */
  lemma NamesAgree(m: Media, fmt: string)
    requires fmt != "" && '/' !in fmt
    ensures var n := FileName(ArtifactBase(m), fmt);
      && BlobKey(ArtifactBase(m), fmt) == "audio/" + n
      && OutputPath(ArtifactBase(m), fmt) == "/tmp/" + n
      && '/' !in n && n != "." && n != ".."
  {
    var base := ArtifactBase(m);
    ArtifactBaseShape(m);
    var n := FileName(base, fmt);
    assert |n| >= 3;
    forall i | 0 <= i < |n| ensures n[i] != '/' {
      if i < |base| {
        assert n[i] == base[i];
      } else if i > |base| {
        assert n[i] == fmt[i - |base| - 1];
      }
    }
  }

  /** The key is not collision-free across media: a dot in a title can produce
      the same key as a dot in an id. */
  lemma KeysCanCollide(fmt: string)
    ensures Media("c", "a.b") != Media("b.c", "a")
    ensures BlobKey(ArtifactBase(Media("c", "a.b")), fmt) == BlobKey(ArtifactBase(Media("b.c", "a")), fmt)
  {
    assert "a.b" + "." + "c" == "a" + "." + "b.c";
  }

  // ---------------------------------------------------------------------------
  // The handler

  /** Whether an external call succeeded in `env`. */
  ghost predicate Succeeded(e: Effect, env: Env) {
    match e
    case AccessBinary(p) => env.access(p)
    case RunProbe(c, a) => Probe(Run(env.run, c, a, None), env.parse).Success?
    case RunConvert(c, a, d) => Run(env.run, c, a, Some(d)).code == 0
    case ReadOutput(p) => env.readFile(p).Success?
    case PutBlob(k, d, t) => env.put(k, d, t).Success?
  }

  /** A response carrying the public url of the upload. */
  predicate Succeeds(r: Response) {
    r.Json? && r.body.Link?
  }

  /** The outcome of one request: the response, and the external calls made, in order. */
  datatype Handled = Handled(response: Response, trace: seq<Effect>)

  /** The outcome of probing `url` with the bundled yt-dlp. */
  ghost function Probed(url: string, env: Env): Result<Media, string> {
    Probe(Run(env.run, BinPath(env.cwd, "yt-dlp"), MetadataArgs(url), None), env.parse)
  }

  /** What `POST` does, step by step, with an early return at the first failure. */
  ghost function Handle(req: Request, env: Env): (h: Handled)
    ensures |h.trace| <= 6
    ensures h.trace == [] <==> !Truthy(req.url)
    ensures Succeeds(h.response) ==> |h.trace| == 6
  {
    if !Truthy(req.url) then Handled(MissingUrl, [])
    else
      var url, fmt := req.url.value, Format(req.format);
      var ytdlp, ffmpeg := BinPath(env.cwd, "yt-dlp"), BinPath(env.cwd, "ffmpeg");
      if !env.access(ytdlp) then Handled(MissingBinaries, [AccessBinary(ytdlp)])
      else if !env.access(ffmpeg) then Handled(MissingBinaries, [AccessBinary(ytdlp), AccessBinary(ffmpeg)])
      else
        var probing := [AccessBinary(ytdlp), AccessBinary(ffmpeg), RunProbe(ytdlp, MetadataArgs(url))];
        var probed := Probed(url, env);
        if probed.Failure? then Handled(Thrown(probed.error), probing)
        else
          var base := ArtifactBase(probed.value);
          var args := ConvertArgs(fmt, ffmpeg, OutputTemplate(base), url);
          var converting := probing + [RunConvert(ytdlp, args, "/tmp")];
          var converted := Run(env.run, ytdlp, args, Some("/tmp"));
          if converted.code != 0 then
            Handled(Json(500, Error(ConvertFailed, Some(Or(converted.stderr, converted.stdout)))), converting)
          else
            var path := OutputPath(base, fmt);
            var file := env.readFile(path);
            if file.Failure? then
              Handled(Json(500, Error(UploadFailed, Some(file.error))), converting + [ReadOutput(path)])
            else
              var key, contentType := BlobKey(base, fmt), ContentType(fmt);
              var uploaded := env.put(key, file.value, contentType);
              Handled(if uploaded.Success? then Json(200, Link(uploaded.value))
                      else Json(500, Error(UploadFailed, Some(uploaded.error))),
                      converting + [ReadOutput(path), PutBlob(key, file.value, contentType)])
  }

  /** Without a url no call is made; with one, at least the first binary is
      checked and at most the six calls are made. */
  lemma CallCount(req: Request, env: Env)
    ensures var h := Handle(req, env);
      && |h.trace| <= 6
      && (h.trace == [] <==> !Truthy(req.url))
      && (!Truthy(req.url) ==> h.response == MissingUrl)
  {
  }

  /** Each call is made only after every earlier one succeeded. */
  lemma EarlierCallsSucceeded(req: Request, env: Env)
    ensures var h := Handle(req, env);
      forall i :: 0 <= i < |h.trace| - 1 ==> Succeeded(h.trace[i], env)
  {
  }

  /** The handler stops at the first call that fails, and it answers with the
      upload's url exactly when all six calls succeeded. */
  lemma StopsAtFirstFailure(req: Request, env: Env)
    ensures var h := Handle(req, env);
      && (h.trace != [] && !Succeeds(h.response) ==> !Succeeded(h.trace[|h.trace| - 1], env))
      && (Succeeds(h.response) <==> |h.trace| == 6 && Succeeded(h.trace[5], env))
  {
  }

  /** The first calls: the two binaries, then the metadata probe of the url. */
  lemma CallsBeforeConversion(req: Request, env: Env)
    requires Truthy(req.url)
    ensures var h := Handle(req, env);
      var ytdlp := BinPath(env.cwd, "yt-dlp");
      && 1 <= |h.trace|
      && h.trace[0] == AccessBinary(ytdlp)
      && (|h.trace| > 1 ==> h.trace[1] == AccessBinary(BinPath(env.cwd, "ffmpeg")))
      && (|h.trace| > 2 ==> h.trace[2] == RunProbe(ytdlp, MetadataArgs(req.url.value)))
  {
  }

  /** The later calls: the conversion inside /tmp named after the probed media,
      the read of the file the format names, and the upload of exactly the bytes
      read under the blob key with the format's content type. */
  lemma CallsAfterProbe(req: Request, env: Env)
    requires |Handle(req, env).trace| > 3
    ensures var h := Handle(req, env);
      var url, fmt := req.url.value, Format(req.format);
      var ytdlp, ffmpeg := BinPath(env.cwd, "yt-dlp"), BinPath(env.cwd, "ffmpeg");
      && Truthy(req.url) && Probed(url, env).Success?
      && var base := ArtifactBase(Probed(url, env).value);
      && h.trace[3] == RunConvert(ytdlp, ConvertArgs(fmt, ffmpeg, OutputTemplate(base), url), "/tmp")
      && (|h.trace| > 4 ==> h.trace[4] == ReadOutput(OutputPath(base, fmt)))
      && (|h.trace| > 5 ==>
            && env.readFile(OutputPath(base, fmt)).Success?
            && h.trace[5] == PutBlob(BlobKey(base, fmt), env.readFile(OutputPath(base, fmt)).value, ContentType(fmt)))
  {
  }

  /** Only a failed probe escapes the handler as a thrown error; every other
      failure is answered with a JSON error body. */
  lemma OnlyTheProbeThrows(req: Request, env: Env)
    ensures var h := Handle(req, env);
      && (h.response.Thrown? <==> |h.trace| == 3 && !Succeeded(h.trace[2], env))
      && (!h.response.Thrown? ==> h.response.Json?)
  {
  }

  /** The answers before the conversion: a missing binary is a 500 with the fixed
      message, and a failed probe throws the probe's own message. */
  lemma EarlyFailureAnswers(req: Request, env: Env)
    requires Truthy(req.url)
    ensures var h := Handle(req, env);
      var ytdlp, ffmpeg := BinPath(env.cwd, "yt-dlp"), BinPath(env.cwd, "ffmpeg");
      && (!env.access(ytdlp) || !env.access(ffmpeg) ==>
            && h.response == MissingBinaries
            && h.response.status == 500 && h.response.body.Error?)
      && (env.access(ytdlp) && env.access(ffmpeg) && Probed(req.url.value, env).Failure? ==>
            h.response == Thrown(Probed(req.url.value, env).error))
  {
  }

  /** The answers after the probe: a failed conversion is a 500 `Fallo yt-dlp`
      with stderr, or stdout when stderr is empty; a failed read or upload is a
      500 with the upload message and the error's own message. */
  lemma LateFailureAnswers(req: Request, env: Env)
    requires |Handle(req, env).trace| > 3
    ensures var h := Handle(req, env);
      var url, fmt := req.url.value, Format(req.format);
      var ytdlp, ffmpeg := BinPath(env.cwd, "yt-dlp"), BinPath(env.cwd, "ffmpeg");
      && Truthy(req.url) && Probed(url, env).Success?
      && var base := ArtifactBase(Probed(url, env).value);
      && var converted := Run(env.run, ytdlp, ConvertArgs(fmt, ffmpeg, OutputTemplate(base), url), Some("/tmp"));
      && (converted.code != 0 ==>
            h.response == Json(500, Error("Fallo yt-dlp",
                                          Some(if converted.stderr != "" then converted.stderr else converted.stdout))))
      && var file := env.readFile(OutputPath(base, fmt));
      && (converted.code == 0 && file.Failure? ==>
            h.response == Json(500, Error(UploadFailed, Some(file.error))))
      && (converted.code == 0 && file.Success? ==>
            var put := env.put(BlobKey(base, fmt), file.value, ContentType(fmt));
            put.Failure? ==> h.response == Json(500, Error(UploadFailed, Some(put.error))))
  {
  }

  /** A successful answer is a 200 whose url is the one the blob store returned
      for the upload of the bytes read at the output path. */
  lemma SuccessLinksUpload(req: Request, env: Env)
    requires Succeeds(Handle(req, env).response)
    ensures var h := Handle(req, env);
      && Truthy(req.url) && Probed(req.url.value, env).Success?
      && var base := ArtifactBase(Probed(req.url.value, env).value);
      && var fmt := Format(req.format);
      && env.readFile(OutputPath(base, fmt)).Success?
      && var put := env.put(BlobKey(base, fmt), env.readFile(OutputPath(base, fmt)).value, ContentType(fmt));
      && put.Success?
      && h.response == Json(200, Link(put.value))
  {
  }

  /** `POST(req)`: answers as `Handle` says. */
  method Post(req: Request, env: Env) returns (response: Response)
    ensures response == Handle(req, env).response
  {
    if !Truthy(req.url) {
      return MissingUrl;
    }
    var url := req.url.value;
    var fmt := Format(req.format);
    var ytdlp := BinPath(env.cwd, "yt-dlp");
    var ffmpeg := BinPath(env.cwd, "ffmpeg");

    // 1) both binaries must be present
    if !env.access(ytdlp) || !env.access(ffmpeg) {
      return MissingBinaries;
    }

    // 2) id and title; a failed probe throws out of the handler
    var probed := Probe(Run(env.run, ytdlp, MetadataArgs(url), None), env.parse);
    if probed.Failure? {
      return Thrown(probed.error);
    }
    var base := ArtifactBase(probed.value);

    // 3) convert inside /tmp
    var args := ConvertArgs(fmt, ffmpeg, OutputTemplate(base), url);
    var converted := Run(env.run, ytdlp, args, Some("/tmp"));
    if converted.code != 0 {
      return Json(500, Error(ConvertFailed, Some(Or(converted.stderr, converted.stdout))));
    }

    // 4) read the file the format names and upload it under a stable key
    var outPath := OutputPath(base, fmt);
    var file := env.readFile(outPath);
    if file.Failure? {
      return Json(500, Error(UploadFailed, Some(file.error)));
    }
    var uploaded := env.put(BlobKey(base, fmt), file.value, ContentType(fmt));
    if uploaded.Failure? {
      return Json(500, Error(UploadFailed, Some(uploaded.error)));
    }
    response := Json(200, Link(uploaded.value));
  }
}
