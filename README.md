# flacdown-web: the filename sanitizer and the two route handlers

This project models the decision logic of a small web application. The
application turns a media locator (a URL or a search query) into an audio
file. It probes the locator with the bundled `yt-dlp`, converts the audio with
`yt-dlp` and `ffmpeg` inside `/tmp`, and uploads the file to blob storage under
a key derived from the media's title and id. The model covers three pieces:

- `Sanitize` (sanitize.dfy) is `sanitizeFilename`. Its two regular-expression
  replacements, the trim and the slice are each a function over `seq<char>`.
  Lemmas prove the shape of the result and its relation to the input: no
  reserved characters, only isolated plain spaces, the length bound, the
  prefix relation, order preservation, the empty case and idempotence.
- `Download` (download.dfy) is the `POST` handler of the download route. It
  covers the probe's entry selection and defaults, the artifact name, the
  key, path and argument construction, the content-type table and the step
  order with early returns. `Handle` is a ghost function. It gives the
  response and the ordered list of external calls made for a request in a
  given environment. `Post` is the step-by-step method, and it is proved to
  answer as `Handle` does. The external calls (`fs.access`, spawning a child,
  `JSON.parse`, `fs.readFile`, the blob `put`) are function-valued fields of
  an `Env` value.
- `Info` (info.dfy) is the `GET` handler of the info route. It is a function
  from the query, the working directory and the process runner to a response.

The remaining modules are small:

- `Process` has the result of the `run` helper. A `null` exit code reads as 0.
- `Js` has the JavaScript semantics the handlers rely on: truthiness, the logical or
  on strings and `toLowerCase`.
- `Http` has the response shapes.
- `Wrappers` has `Option` and `Result`.

The local `sanitize` in app/api/download/route.ts:35-38 is the same expression
as lib/sanitize.ts:2-5. Both are modelled by `Sanitize.SanitizeFilename`.

## Model

| member | source | states |
|---|---|---|
| Sanitize.SanitizeFilename | lib/sanitize.ts:2-5 | The result is a prefix of the cleaned name, no longer than a non-negative `maxLen`. It is the whole cleaned name when that fits in `maxLen`, and otherwise exactly its first `maxLen` characters. |
| Sanitize.ReplaceRuns | lib/sanitize.ts:3 | A global replacement of runs never makes the string longer. |
| Sanitize.Replace | lib/sanitize.ts:3 | A replacement starting outside any run never makes the string longer, and it yields the empty string exactly for the empty string. |
| Sanitize.TrimStart | lib/sanitize.ts:3 | Removing leading whitespace never makes the string longer. |
| Sanitize.TrimEnd | lib/sanitize.ts:3 | Removing trailing whitespace never makes the string longer. |
| Sanitize.Trim | lib/sanitize.ts:3 | `trim` never makes the string longer, and a non-empty result starts and ends with a non-whitespace character. |
| Sanitize.Cleaned | lib/sanitize.ts:3 | The three cleaning passes never make the name longer. |
| Sanitize.SanitizeDefault | lib/sanitize.ts:2 | With the default `maxLen` the result has at most 200 characters. |
| Sanitize.Slice | lib/sanitize.ts:4 | `slice(0, end)` is a prefix of length `end` clamped to the string, and a negative `end` counts back from the end. |
| Sanitize.ReplaceRunsChars | lib/sanitize.ts:3 | Each global replacement emits only single spaces and characters outside its class. |
| Sanitize.ReplaceSeparatesSpaces | lib/sanitize.ts:3 | After the whitespace replacement, or the one-pass replacement of both classes, no two whitespace characters are adjacent. A replacement that starts inside a run emits no leading whitespace. |
| Sanitize.ReplaceKeepsNoReserved | lib/sanitize.ts:3 | The whitespace replacement introduces no reserved character. |
| Sanitize.TrimStartSpec | lib/sanitize.ts:3 | The start of `trim` drops exactly a whitespace prefix and leaves no leading whitespace. |
| Sanitize.TrimEndSpec | lib/sanitize.ts:3 | The end of `trim` drops exactly a whitespace suffix and leaves no trailing whitespace. |
| Sanitize.CleanedIsClean | lib/sanitize.ts:3 | The cleaned name has no reserved character, only plain spaces, no two adjacent, and none at either end. |
| Sanitize.SanitizeShape | lib/sanitize.ts:3-4 | The output has no reserved character, only isolated plain spaces, and no leading whitespace. It ends in a space only when the cut removed something. |
| Sanitize.StripCleaned | lib/sanitize.ts:3 | Cleaning deletes only reserved and whitespace characters and keeps every other character in order. |
| Sanitize.SanitizeKeepsOrder | lib/sanitize.ts:3-4 | Deleting the spaces from the output gives a prefix of the input with all reserved and whitespace characters deleted. Without a cut it gives all of it. |
| Sanitize.SanitizeEmptyIff | lib/sanitize.ts:3-4 | For a positive `maxLen`, the output is empty exactly when the input is only reserved and whitespace characters. |
| Sanitize.SanitizeTwice | lib/sanitize.ts:3-4 | Sanitizing twice equals trimming the trailing space off the first result. So the output is a fixed point exactly when it does not end in a space. |
| Sanitize.SanitizeIdempotent | lib/sanitize.ts:3-4 | Without a cut, sanitizing is idempotent. |
| Sanitize.Collapse | lib/sanitize.ts:3 | The one-pass replacement of runs of reserved-or-whitespace characters never makes the string longer. |
| Sanitize.TwoPassesAreOne | lib/sanitize.ts:3 | The reserved replacement followed by the whitespace replacement equals one replacement of runs of reserved-or-whitespace characters (`Sanitize.Collapse`). |
| Sanitize.ReplaceRunsAppend | lib/sanitize.ts:3 | A global replacement of a concatenation is the replacement of each part, the second continuing the run the first ended in. |
| Sanitize.CollapseRun | lib/sanitize.ts:3 | A non-empty run of reserved and whitespace characters becomes one space, or nothing when it continues a run. |
| Sanitize.CollapseEnd | lib/sanitize.ts:3 | The one-pass replacement ends in a space exactly when its input ends in a reserved or whitespace character, and otherwise ends with the input's last character. |
| Sanitize.TrimStartOfCollapse | lib/sanitize.ts:3 | Trimming the start of the one-pass replacement equals the replacement started inside a run. |
| Sanitize.CleanedOnePass | lib/sanitize.ts:3 | The cleaned name is the one-pass replacement started inside a run, with its trailing whitespace trimmed. |
| Sanitize.TrimEndAppend | lib/sanitize.ts:3 | Trimming the end of a concatenation whose second part keeps a character trims only that part. |
| Sanitize.CollapseJoin | lib/sanitize.ts:3 | Replacing `x`, a run and `y` gives the replacement of `x`, one space unless `x` already ended in a run, and the replacement of `y`. |
| Sanitize.GapIsOneSpace | lib/sanitize.ts:3 | Before the space a run leaves, the replaced `x` has no trailing whitespace. |
| Sanitize.TrimEndSingleSpace | lib/sanitize.ts:3 | A string ending in one space not preceded by whitespace loses just that space to trimming. |
| Sanitize.CleanedJoin | lib/sanitize.ts:3 | A run of reserved and whitespace characters between two parts that each keep a character becomes exactly one space. Each part is cleaned on its own: `Cleaned(x + run + y) == Cleaned(x) + " " + Cleaned(y)`. |
| Js.Or | app/api/download/route.ts:26 | The logical or of two strings is the first unless it is empty, and the second otherwise. |
| Js.Truthy | app/api/download/route.ts:42 | A string that may be absent is falsy exactly when it is absent or empty. |
| Js.ToLower | app/api/download/route.ts:43 | The model's A-to-Z lower-casing keeps the length. |
| Js.ToLowerSpec | app/api/download/route.ts:43 | The model's A-to-Z lower-casing lowers each character on its own and leaves no letter A to Z. |
| Js.ToLowerIdentity | app/api/download/route.ts:43 | Under the model's A-to-Z mapping, lower-casing a string without the letters A to Z changes nothing. |
| Process.BinPathLayout | app/api/download/route.ts:45-46 | A binary's path is the working directory, then `/bin/`, then the name, so yt-dlp and ffmpeg get different paths. |
| Process.MetadataArgsLayout | app/api/download/route.ts:24 | The metadata call passes `--dump-single-json`, `--no-warnings` and then the locator as the last argument. Different locators give different calls. |
| Process.Run | app/api/download/route.ts:18 | The result of `run` carries the child's streams. Its code is 0 exactly when the exit code is 0 or `null`. |
| Download.Format | app/api/download/route.ts:43 | The format is never empty. It is `flac` when the request has no format or an empty one, and otherwise the requested format lower-cased. |
| Download.FormatLowerCase | app/api/download/route.ts:43 | The format has no letter A to Z. Under the model's A-to-Z lower-casing, a requested format keeps its length. |
| Download.FormatNotWhitelisted | app/api/download/route.ts:43 | Any non-empty format without the letters A to Z is used as given: no whitelist is applied. |
| Download.ContentType | app/api/download/route.ts:84 | mp3 maps to `audio/mpeg`, and opus and wav map to themselves. The type is `audio/flac` exactly for every other format, flac included. |
| Download.SelectEntry | app/api/download/route.ts:29 | When `entries` is non-empty and its first element is not null, that element is selected. Otherwise the document itself is selected. |
| Download.FieldOrAudio | app/api/download/route.ts:30-31 | A field is its value when present and non-empty, and `"audio"` otherwise. It is never empty. |
| Download.MediaOf | app/api/download/route.ts:29-31 | The probed id and title are never empty. |
| Download.FirstEntryOnly | app/api/download/route.ts:29-31 | With a usable first entry, only that entry's fields matter. The document's own fields and later entries are ignored. |
| Download.DocumentWithoutEntries | app/api/download/route.ts:29-31 | Without `entries`, with an empty one, or with a null first element, the document's own fields are read, defaulting to `"audio"`. |
| Download.NullDocument | app/api/download/route.ts:29-31 | A `null` document gives `"audio"` for both id and title. |
| Download.Probe | app/api/download/route.ts:23-33 | `probe` after its child has run (the ghost function `Download.Probed` applies it to the metadata call on the bundled yt-dlp). A non-zero exit fails with the first non-empty of stderr, stdout and `yt-dlp probe failed`. A parse failure is the failure. Otherwise the result is the media read from the document. |
| Download.ArtifactBase | app/api/download/route.ts:58 | The base name is `sanitize(title + "." + id)`, with at most 200 characters. |
| Download.ArtifactBaseShape | app/api/download/route.ts:58 | The base name is never empty and has no `/` or other reserved character. |
| Download.StripDottedName | app/api/download/route.ts:58 | Stripping the reserved and whitespace characters from `title.id` gives the stripped title, a dot and the stripped id, so the cleaned name is never empty. The cut at 200 characters can still remove the dot and the id when the cleaned title is that long. |
| Download.NamesAgree | app/api/download/route.ts:58-79 | For a format without `/`, the blob key is `audio/` + n and the path is `/tmp/` + n for one file name n. That name is a single segment and neither `.` nor `..`. |
| Download.TemplateNamesOutput | app/api/download/route.ts:60-76 | The template is the base, a dot and yt-dlp's extension field. Filling in the field with the format gives the file name the handler reads back at `/tmp`. |
| Download.KeyAndPathShareName | app/api/download/route.ts:76-79 | The key lies in `audio/` and the path in `/tmp/`, under one file name ending in `.` and the format. |
| Download.ConvertArgsLayout | app/api/download/route.ts:61-66 | The conversion call has ten arguments. The format follows `--audio-format`, the ffmpeg path follows `--ffmpeg-location` and the template follows `-o`. The thumbnail and metadata are embedded, and the locator comes last. |
| Download.KeysCanCollide | app/api/download/route.ts:58-79 | Two different (id, title) pairs can give the same blob key. |
| Download.Handle | app/api/download/route.ts:40-90 | At most six calls are made, none exactly when the url is missing, and all six when the answer is a success. |
| Download.CallCount | app/api/download/route.ts:41-42 | Without a url the answer is 400 `Missing url` and no call is made. With one, between one and six calls are made. |
| Download.EarlierCallsSucceeded | app/api/download/route.ts:49-88 | Every call is made only after all earlier calls succeeded. |
| Download.StopsAtFirstFailure | app/api/download/route.ts:49-88 | A failed answer ends with the call that failed. The answer is the upload's url exactly when all six calls succeeded. |
| Download.CallsBeforeConversion | app/api/download/route.ts:45-57 | The first calls check yt-dlp, then ffmpeg, then probe the url with the metadata arguments. |
| Download.CallsAfterProbe | app/api/download/route.ts:58-85 | Next comes the conversion in `/tmp` with the exact argument list and the template named after the probed media. Then the read of `/tmp/base.fmt`, then the upload of exactly the bytes read, under `audio/base.fmt`, with the format's content type. |
| Download.OnlyTheProbeThrows | app/api/download/route.ts:23-57 | The handler throws exactly when the probe, the third call, fails. Every other answer is a JSON response. |
| Download.EarlyFailureAnswers | app/api/download/route.ts:49-57 | With a url, a missing yt-dlp or ffmpeg is answered with the fixed 500 error `Faltan binarios (yt-dlp/ffmpeg) en ./bin. Revisa README.`. A failed probe (`Download.Probed`) is thrown with the probe's own message. |
| Download.LateFailureAnswers | app/api/download/route.ts:68-88 | A failed conversion is a 500 `Fallo yt-dlp` whose details are stderr, or stdout when stderr is empty. A failed read, or a failed upload of the bytes read, is a 500 `Upload falló o archivo no encontrado` whose details are that failure's message. |
| Download.SuccessLinksUpload | app/api/download/route.ts:80-86 | A successful answer is a 200 whose url is the one the blob store returned for uploading the bytes read at the output path. |
| Download.Post | app/api/download/route.ts:40-90 | The handler's response equals the one `Handle` specifies for the request and the environment. |
| Info.Get | app/api/info/route.ts:20-32 | Without a query the answer is 400 `Missing q`. A text answer is yt-dlp's stdout verbatim, with status 200 and `application/json`. A 500 answer is `yt-dlp error` with details. Given a spawn that completes, the handler never throws. |
| Info.NoQueryRunsNothing | app/api/info/route.ts:21-22 | Without a query the answer does not depend on the runner. |
| Info.OnlyTheMetadataCall | app/api/info/route.ts:24-27 | With a query, the answer depends only on the call `yt-dlp --dump-single-json --no-warnings q` without a working directory (the call `Info.Call` builds). |
| Info.ExitCodeDecides | app/api/info/route.ts:16-31 | An exit code of 0 or `null` passes stdout through. Any other code gives 500 with stderr, or stdout when stderr is empty. |

## Left out

- The `run` helper's spawning and stream accumulation (app/api/download/route.ts:12-20, app/api/info/route.ts:10-18) are a `Runner` function from command, arguments and working directory to the completed streams and exit code. Only `code ?? 0` is modelled.
- Process.Run: the model assumes every spawn completes. In the code, `run` registers no `'error'` listener. A child that cannot be started (missing, or present but not executable) raises an unhandled `'error'` event and never emits `'close'`, so the promise never settles and the handler never answers. `fs.access` at app/api/download/route.ts:50-51 checks only that the file exists, not that it is executable, so the download route can reach this case too. An argument containing a NUL character (`q=%00`, or a `url` with `\u0000`) makes `spawn` throw inside the promise executor of `run`, so the promise rejects and the handler throws rather than answering; the model's `Runner` always completes, so `Info.Get`'s clause that the handler never throws holds only under that assumption.
- `fs.access`, `fs.readFile`, the blob `put` and `JSON.parse` are outcome functions in `Env`. The `put` options `access`, `token` (read from the environment) and `addRandomSuffix` are not modelled, and neither is what the blob store does with them.
- Download.Post: the method is proved to return the response `Handle` gives, and nothing more. Each external call is a pure function application on `Env`, so the method has no effects to observe. The call order and the failure answers are proved of `Handle`, the specification function, not of the method's own sequence of steps.
- `await req.json()` failing on a malformed body, and request or probe fields that are not strings (a numeric `id`, a non-string `format`, an `entries` that is not an array), are not modelled. The model takes the fields as optional strings.
- When a JSON error body is built from an exception without a message, `details` is omitted. The model always carries the message string.
- A thrown error (a failed probe or an unparsable probe document) is the `Thrown` response. What the framework answers with it is not modelled.
- Js.ToLower: lower-cases the letters A to Z only. `toLowerCase` maps all of Unicode and can change the length (`"İ".toLowerCase()` has two UTF-16 units). The length clauses of `Js.ToLower` and `Download.FormatLowerCase` hold for the model's mapping only.
- Sanitize.Slice: counts characters (Unicode scalar values). JavaScript's `slice` counts UTF-16 code units, so the two differ on characters outside the Basic Multilingual Plane.
- Download.NamesAgree: `path.join` normalisation is not modelled. The lemma assumes a format without `/`. With `/` or `..` segments in the format, `path.join` would resolve the path differently from the string the model builds.
- yt-dlp's naming of its output is not modelled: the model does not tie the file the conversion writes to the template. yt-dlp may write another extension than the requested format (for `vorbis` it writes `.ogg`), and it expands `%(...)s` fields inside a title. The read at `/tmp/base.fmt` then fails and the handler answers the 500 upload error, which `Download.LateFailureAnswers` states for any failed read.
- Process.MetadataArgs: the locator is passed without a `--` before it (app/api/download/route.ts:24, app/api/info/route.ts:26), so yt-dlp parses a locator that starts with `-` as an option (`q=--version` prints the version and exits 0, which the info route answers as a 200 JSON body). The model's unconstrained `Runner` absorbs this case without stating it.
- Process.BinPath: `path.join(process.cwd(), 'bin', name)` is concatenation, for a working directory without a trailing separator.
- The React page and layout, and the script that fetches the binaries, are not part of this model (UI and network work).
- The route code has no duration limit, no fetch-on-demand binary resolver, no exit code 127 and no truncation of diagnostics; none is modelled.
- The `runtime`, `dynamic` and `maxDuration` exports are framework configuration, and are not modelled.
