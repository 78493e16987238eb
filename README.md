# flask-voice-clone: the upload-and-synthesis pipeline in Dafny

The Flask application in `app.py` takes a reference voice sample and some text. It has a voice-cloning
engine (Coqui XTTS v2) read the text in the sampled voice, and it serves the resulting WAV file. This
project models the part of that application with real decisions in it:

- **Intake** (`upload_file`, app.py:255-264). Three checks run in a fixed order: the `file` field must be
  present, then the `text` field, then the filename must be non-empty. Each failure has its own 400 message.
- **Naming** (`clone_voice`, app.py:236-237). The artifact is called `cloned_voice_<ms>.wav`, where `<ms>`
  is the whole number of milliseconds on the clock. It is written at `outputs/<name>`.
- **Orchestration** (`clone_voice` and `upload_file`, app.py:238-279). The upload is saved at
  `os.path.join("uploads", filename)` and the engine is run. The answer is 500 when the engine raised or left
  no file at the output path. Any other exception gives 500 "Internal server error" with the exception's
  message. Otherwise the answer is 200 with the bare name.
- **Retrieval** (`serve_output`, app.py:281-287). The name is looked up under `outputs`. Every failure inside
  the handler (a refused name, a missing file, a failure to stat or open it) is answered with 404 "File not
  found".

The filesystem is a class `Files.Disk`. It has two constants, the server's working directory and the
application's root path (`app.root_path`, the directory holding app.py), and, as its one field, a map from file locations to byte sequences. A location is the list of directory names from the root
down to the file. A path string reaches a file through `Resolution.Locate`, which models what the operating
system does with a path on a lookup. It splits the path at `/`. It starts a relative path at a given directory. It drops empty and `.` segments, and `..` removes the segment before it. So `uploads/../outputs/x`
and `outputs/x` are the same file. `Disk.Write`, `Disk.Exists` and `Disk.Read` are this abstraction of the
filesystem: they act on the location the path resolves to. `file.save`, the engine and `os.path.exists`
resolve relative paths from the working directory. `send_from_directory` resolves the output folder from
the root path, so the retrieval side (`Retrieval.Serve`) takes the root path, not the working directory.

The handlers are methods that change the disk (`modifies disk`). Each method is proved against a pure
function: `Synthesis.Handle` for `upload_file`, `Synthesis.CloneResult` with `Synthesis.AfterEngine` for
`clone_voice`, and `Retrieval.Serve` for `serve_output`. The properties are lemmas about those functions.
They take the working directory as a parameter. Where a property needs the directory to be a real one (no
empty, `.` or `..` segments, as `os.getcwd()` reports it), it requires `Resolved(cwd)`.

Inputs that the program takes from its environment are parameters here:

- the working directory, and the application's root path;
- the clock reading, as a `nat` number of milliseconds;
- the behaviour of the engine on one call (`Synthesis.EngineRun`: the bytes it wrote, if any, and the
  exception it raised, if any; the two are independent);
- an exception raised while saving the upload (`Env.stagingFault`);
- a failure to stat or open the file being served (`readFault`).

Modules: `Wrappers` (Option), `Paths` (POSIX `os.path.join` and last path component), `Resolution` (splitting
a path and resolving it to a location), `Digits` (`str` of a non-negative int and its inverse), `Layout`
(folders, artifact names and their pattern, and where the staged upload and the artifact land), `Files` (the
store), `Responses` (JSON answers), `Intake`, `Synthesis`, `Retrieval`.

`upload_file` only checks that the `text` field is present (app.py:257), so an empty text is admitted
(`Synthesis.EmptyTextNotRefused`).

Three consequences of the code as written:

- The check after synthesis only asks whether some file exists at the output path. A file left there by an
  earlier request made in the same millisecond therefore turns a silent engine failure into a 200 that names
  the older file (`Synthesis.StaleArtifactPassesExistenceCheck`).
- The client's filename is joined under `uploads` unchanged. A filename such as
  `../outputs/cloned_voice_<ms>.wav` is therefore saved onto an artifact's file
  (`Layout.TraversalReachesOutput`). An upload under the name of an earlier artifact replaces it for the
  fetches that follow, until that file is written again (`Retrieval.TraversalUploadReplacesArtifact`). An upload under the name of this request's
  artifact gets a 200 even from an engine that writes nothing, and the fetch then serves the uploaded sample
  (`Retrieval.TraversalUploadServedAsArtifact`). A relative filename without `..` segments never lands on an
  artifact (`Layout.StagingNeverOutput`). The two fetch lemmas state this for a server started in the
  directory of app.py.
- The upload handler writes and checks the artifact below the working directory, while the fetch reads it
  below the root path. Take a server started in any other directory, an engine that writes the artifact, no file
  of that name already under the root path's `outputs`, and an upload not staged there. The upload is
  answered with 200, and a fetch of the returned name with 404 (`Retrieval.FetchMissesOutsideRoot`).

## Model

| member | source | states |
|---|---|---|
| `Paths.Join` | app.py:266 | `os.path.join`: an absolute second component replaces the folder; otherwise the result starts with the folder and ends with the component, and a `/` is put between them exactly when the folder is non-empty and does not already end in one |
| `Paths.Basename` | app.py:237 | the last component of a path is a separator-free suffix of it, preceded by a separator unless it is the whole path |
| `Paths.JoinKeepsBasename` | app.py:237 | joining a name under a folder never changes its last component |
| `Resolution.Split` | app.py:266 | a path splits into at least one segment, none holding a separator |
| `Resolution.SplitRoundTrip` | app.py:266 | joining the segments with `/` gives the path back, so splitting loses nothing |
| `Resolution.SplitAtSlash` | app.py:266 | the segments of `a/b` are those of `a` followed by those of `b` |
| `Resolution.Resolve` | app.py:267 | resolving from a directory without `.`, `..` or empty segments gives a location without them |
| `Resolution.ResolveRegular` | app.py:267 | segments with nothing to resolve are taken over unchanged |
| `Resolution.ResolveStaysBelow` | app.py:267 | without `..` segments, resolution never leaves the directory it starts from |
| `Digits.Decimal` | app.py:236 | the decimal rendering of the millisecond count is a canonical numeral: digits only, non-empty, leading zero only for 0 |
| `Digits.DecimalRoundTrip` | app.py:236 | reading the rendered numeral back gives the number |
| `Digits.CanonicalRoundTrip` | app.py:236 | every canonical numeral is the rendering of the number it denotes |
| `Digits.DecimalInjective` | app.py:236 | distinct numbers render as distinct strings |
| `Layout.OutputName` | app.py:236 | the generated name is non-empty, has no separator and is not absolute |
| `Layout.OutputStampOfName` | app.py:236 | every generated name matches `cloned_voice_<digits>.wav` and carries its own timestamp |
| `Layout.OutputNameOfStamp` | app.py:236 | every name matching the pattern is the name generated for its timestamp (the converse round trip) |
| `Layout.OutputNameInjective` | app.py:236 | two different millisecond readings give two different names |
| `Layout.OutputPathShape` | app.py:236-237 | the output path is `outputs/` followed by the name, and the name is exactly its last component |
| `Layout.StagingPathVerbatim` | app.py:266 | the upload is staged at `uploads/` plus the client's filename, unmodified; an absolute filename is used as the path itself |
| `Layout.OutputLocationShape` | app.py:237 | the artifact is written to the file named by the generated name inside `outputs` in the working directory |
| `Layout.OutputLocationInjective` | app.py:236-237 | requests in different milliseconds write different files |
| `Layout.StagingNeverOutput` | app.py:266 | a relative filename without `..` segments is staged on a file other than every artifact's file |
| `Layout.TraversalReachesOutput` | app.py:266 | the filename `../outputs/<name>` of a generated name is staged on exactly that artifact's file |
| `Files.Disk.Write` | app.py:267 | filesystem abstraction: saving creates or replaces the one file the path resolves to and leaves all others as they were |
| `Files.Disk.Exists` | app.py:272 | filesystem abstraction: a path exists exactly when the file it resolves to is in the store |
| `Files.Disk.Read` | app.py:284 | filesystem abstraction: reading gives the bytes of the file the path resolves to from the given directory, or nothing when there is none |
| `Intake.Validate` | app.py:255-264 | missing file wins over missing text, which wins over an empty filename; a request is admitted iff both fields are present and the filename is non-empty, and text is only required to be present |
| `Intake.RejectionsDistinguishable` | app.py:255-264 | the three refusals have three different messages |
| `Synthesis.CloneResult` | app.py:235-246 | `clone_voice` returns both values or neither; neither exactly when the engine raised; otherwise a name matching the pattern for this timestamp, and a path that joins it under `outputs` and has that name as its last component |
| `Synthesis.TtsToFile` | app.py:240 | the engine call changes only the file at its output path, and only when it writes |
| `Synthesis.CloneVoice` | app.py:235-246 | the store afterwards holds what the engine wrote at the output path; the results are those of `CloneResult` |
| `Synthesis.UploadFile` | app.py:253-279 | the handler's answer and the store it leaves are those the `Handle` function specifies |
| `Synthesis.MissingAudioRefusedFirst` | app.py:255-256 | no file field gives 400 "No audio file provided" whatever the text, with the store untouched |
| `Synthesis.MissingTextRefused` | app.py:257-258 | a file but no text field gives 400 "No text input provided", with the store untouched |
| `Synthesis.EmptyFilenameRefused` | app.py:263-264 | an empty filename gives 400 "Empty file uploaded", with the store untouched |
| `Synthesis.EmptyTextNotRefused` | app.py:257-264 | an empty text is admitted and never answered with 400 |
| `Synthesis.RefusalIffInvalid` | app.py:255-266 | the answer is 400 exactly when validation fails, and a refused request leaves the store unchanged |
| `Synthesis.StagingFaultIsInternalError` | app.py:276-279 | an exception while saving gives 500 "Internal server error" carrying its message, with nothing written |
| `Synthesis.AfterSaving` | app.py:266-275 | once the upload is saved, the store holds it and then whatever the engine wrote, and the answer is 200 with the generated name exactly when the engine did not raise and a file is at the output path; otherwise the generic synthesis failure |
| `Synthesis.StagedUploadVerbatim` | app.py:266-267 | after saving, the file the filename resolves to below `uploads` holds the uploaded bytes, unless it is the output file and the engine wrote there; for a relative filename without `..` segments the bytes always survive |
| `Synthesis.EngineExceptionIsFailure` | app.py:243-246 | an engine exception gives 500 "Failed to generate cloned voice" / "TTS processing failed", never 200 |
| `Synthesis.SilentEngineFailureIsFailure` | app.py:272-273 | an engine that returns without writing, with no file already at the output path, gives the same 500, unless the upload was staged onto the output file, which then gives 200; for a relative filename without `..` segments always the 500 |
| `Synthesis.StaleArtifactPassesExistenceCheck` | app.py:272-275 | an engine that writes nothing, with a file already at the output path, gives 200; the output file then holds the older file, or the upload when it was staged there |
| `Synthesis.SuccessIff` | app.py:270-275 | 200 exactly when the request is valid, the save succeeded, the engine did not raise and a file is at the output path afterwards: one the engine wrote, one already there, or the upload staged onto it |
| `Synthesis.SuccessNamesArtifact` | app.py:242 | a 200 carries the bare generated name, which matches the pattern for this timestamp; the output file exists and holds what the engine wrote |
| `Synthesis.KnownStatuses` | app.py:253-279 | every upload answer is 200, 400 or 500 |
| `Synthesis.OnlyStagedAndOutputChange` | app.py:266-272 | the handler deletes nothing and changes no file other than the staged upload and the output file |
| `Retrieval.Serve` | app.py:282-287 | for a name the route delivers (non-empty, no `/`): 200 with the file's bytes exactly when the name is neither `.` nor `..`, statting and opening succeed and the file exists under `outputs` below the application's root path; otherwise 404 "File not found" |
| `Retrieval.ServeOutput` | app.py:282-287 | the handler answers as `Serve` specifies for the current store and the disk's root path |
| `Retrieval.ServedFromOutputLocation` | app.py:282-284 | fetching a generated name serves the artifact file of that name below the root path, or 404 when it is absent |
| `Retrieval.FetchAfterSuccess` | app.py:272-284 | fetching the name a 200 returned reads the artifact file below the root path; when the root path is the working directory this yields the output file, byte for byte what the engine wrote when it wrote |
| `Retrieval.OutputLocationsApart` | app.py:237-284 | two different directories hold two different artifact files for the same name |
| `Retrieval.FetchMissesOutsideRoot` | app.py:272-284 | with the working directory different from the root path, an upload whose artifact the engine wrote gets 200, and fetching the returned name gets 404 |
| `Retrieval.MissingArtifactNotFound` | app.py:283-287 | the name `.` or `..`, a file absent below the root path, or a failure to stat or open it gives 404, never a server error |
| `Retrieval.TraversalUploadServedAsArtifact` | app.py:266-284 | an upload named `../outputs/<this request's name>` and an engine that writes nothing give a 200; when the root path is the working directory, fetching the name serves the uploaded sample |
| `Retrieval.TraversalUploadReplacesArtifact` | app.py:266-284 | an upload named `../outputs/<an earlier artifact's name>` makes the fetch of that earlier name right after it serve the upload, when the root path is the working directory |

## Left out

- TTS engine construction and synthesis (app.py:16-20, 240). This is a foreign ML library, so each call is an `EngineRun` input. No relation between text, voice sample and audio is modelled.
- Flask routing, multipart parsing, `jsonify`, `render_template_string` and the `GET /` page with its embedded HTML and JavaScript (app.py:1, 7, 22-233, 248-252). A request is a record of two optional fields, and an answer is a status with a JSON-like body. The `<filename>` route segment is modelled only as what it delivers: a non-empty name without `/` (`Retrieval.RouteName`).
- `send_from_directory` internals (app.py:284). Of werkzeug's `safe_join` only the refusal that a route name can meet is modelled, the refusal of `..`; the name `.` is refused too, since it names the folder and never a file. MIME types, caching headers and conditional requests are not modelled.
- Retrieval.Serve: errors while the file's bytes are streamed to the client are not modelled. `send_from_directory` returns a response wrapping the open file, and the bytes are read after `serve_output` has returned, outside its `try` (app.py:283-287). Such an error gives a cut-off 200 or a dropped connection, not the 404.
- The real filesystem beyond lexical path resolution. `os.makedirs` (app.py:11-12) is not modelled. Directories are not distinguished from files and need not exist before a file is saved below them. Symbolic links are not modelled. A save that fails is the `stagingFault` input, and the model takes it to write nothing.
- Exceptions raised elsewhere in `upload_file`, such as in request parsing or in the `print` calls, are not modelled. The only exception path outside `clone_voice` that is modelled is `stagingFault` (app.py:267).
- How Flask computes `app.root_path` from the location of the `app` module (app.py:7). The root path is a parameter, a resolved location like the working directory.
- `time.time() * 1000` truncated by `int()` (app.py:236). This is float arithmetic, so the clock reading is a `nat` millisecond parameter.
- Logging with `print` and `traceback` (app.py:19, 239-245, 268, 277-278, 286), and the port configuration (app.py:289-291).
- Concurrency. Simultaneous requests, and collisions between them beyond the stale-artifact lemma, are not modelled. The code has no coordination to model.
