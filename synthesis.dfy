/**
  Synthesis orchestration: `clone_voice` (app.py:235-246) and the body of
  `upload_file` after validation (app.py:253-279).

  The voice-cloning engine is not modelled; each call is described by an
  `EngineRun` that says whether the engine wrote a file at the path it was
  given and whether it raised.
 */
module Synthesis {
  import opened Wrappers
  import opened Paths
  import opened Digits
  import opened Resolution
  import opened Layout
  import opened Files
  import opened Responses
  import opened Intake

  /** What one `tts.tts_to_file` call did: the bytes it wrote (if any) and the exception it raised (if any). */
  datatype EngineRun = EngineRun(writes: Option<seq<byte>>, raises: Option<string>)

  /**
    Everything about one request besides its form fields: the clock reading in
    whole milliseconds, an exception raised while saving the upload (if any),
    and the engine's behaviour.
   */
  datatype Env = Env(ms: nat, stagingFault: Option<string>, engine: EngineRun)

  /** The store after the engine ran with the file at `loc` as its output. */
  function AfterEngine(files: Store, loc: Location, run: EngineRun): Store {
    if run.writes.Some? then files[loc := run.writes.value] else files
  }

  /** Python truthiness of `output_audio`: neither None nor the empty string. */
  predicate Truthy(s: Option<string>) {
    s.Some? && s.value != ""
  }

  /**
    What `clone_voice` returns: `(None, None)` when the engine raised,
    otherwise the output path together with the bare name it was built from.
   */
  function CloneResult(ms: nat, run: EngineRun): (r: (Option<string>, Option<string>))
    ensures r.0.Some? <==> r.1.Some?
    ensures r.0.None? <==> run.raises.Some?
    ensures r.1.Some? ==> OutputStamp(r.1.value) == Some(ms)
    ensures r.1.Some? ==> r.0.value == Join(OutputFolder, r.1.value) && Basename(r.0.value) == r.1.value
    ensures r.0.Some? ==> Truthy(r.0)
  {
    OutputStampOfName(ms);
    OutputPathShape(ms);
    if run.raises.Some? then (None, None) else (Some(OutputPath(ms)), Some(OutputName(ms)))
  }

  /** `tts.tts_to_file(text=..., file_path=..., speaker_wav=..., language=...)`, as described by `run`. */
  method TtsToFile(disk: Disk, text: string, filePath: string, speakerWav: string, language: string, run: EngineRun)
    returns (raised: Option<string>)
    modifies disk
    ensures disk.files == AfterEngine(old(disk.files), Locate(disk.cwd, filePath), run)
    ensures raised == run.raises
  {
    if run.writes.Some? {
      disk.Write(filePath, run.writes.value);
    }
    raised := run.raises;
  }

  /** `clone_voice(text, audio_samples)` at clock reading `ms`. */
  method CloneVoice(disk: Disk, text: string, audioSamples: string, ms: nat, run: EngineRun)
    returns (outputFile: Option<string>, filename: Option<string>)
    modifies disk
    ensures disk.files == AfterEngine(old(disk.files), OutputLocation(disk.cwd, ms), run)
    ensures (outputFile, filename) == CloneResult(ms, run)
  {
    var uniqueFilename := OutputName(ms);
    var path := Join(OutputFolder, uniqueFilename);
    var raised := TtsToFile(disk, text, path, audioSamples, "en", run);
    if raised.Some? {
      return None, None;
    }
    return Some(path), Some(uniqueFilename);
  }

  /**
    The answer `upload_file` gives and the store it leaves, as a function of
    the working directory and the store it found.
   */
  function Handle(cwd: Location, files: Store, req: Request, env: Env): (Response, Store) {
    match Validate(req)
    case Rejected(reason) => (Reject(reason), files)
    case Admitted(upload, text) =>
      if env.stagingFault.Some? then (InternalError(env.stagingFault.value), files)
      else
        var staged := files[StagingLocation(cwd, upload.filename) := upload.content];
        var after := AfterEngine(staged, OutputLocation(cwd, env.ms), env.engine);
        var cloned := CloneResult(env.ms, env.engine);
        if !Truthy(cloned.0) || Locate(cwd, cloned.0.value) !in after then (GenerationFailed, after)
        else (Response(200, Generated(cloned.1.value)), after)
  }

  /** The POST /upload handler. */
  method UploadFile(disk: Disk, req: Request, env: Env) returns (resp: Response)
    modifies disk
    ensures (resp, disk.files) == Handle(disk.cwd, old(disk.files), req, env)
  {
    var intake := Validate(req);
    if intake.Rejected? {
      return Reject(intake.reason);
    }
    var file, text := intake.upload, intake.text;
    var filePath := Join(UploadFolder, file.filename);
    if env.stagingFault.Some? {
      return InternalError(env.stagingFault.value);
    }
    disk.Write(filePath, file.content);
    var outputAudio, filename := CloneVoice(disk, text, filePath, env.ms, env.engine);
    if !Truthy(outputAudio) {
      return GenerationFailed;
    }
    var present := disk.Exists(outputAudio.value);
    if !present {
      return GenerationFailed;
    }
    return Response(200, Generated(filename.value));
  }

  // ---------------------------------------------------------------------
  // Properties of the upload handler

  /** A request without a file field is refused first, whatever its text, and nothing is written. */
  lemma MissingAudioRefusedFirst(cwd: Location, files: Store, req: Request, env: Env)
    requires req.file.None?
    ensures Handle(cwd, files, req, env) == (BadRequest(NoAudioMessage), files)
  {
  }

  /** A request with a file but no text field is refused, and nothing is written. */
  lemma MissingTextRefused(cwd: Location, files: Store, req: Request, env: Env)
    requires req.file.Some? && req.text.None?
    ensures Handle(cwd, files, req, env) == (BadRequest(NoTextMessage), files)
  {
  }

  /** A file entry with an empty filename is refused, and nothing is written. */
  lemma EmptyFilenameRefused(cwd: Location, files: Store, req: Request, env: Env)
    requires req.file.Some? && req.text.Some? && req.file.value.filename == ""
    ensures Handle(cwd, files, req, env) == (BadRequest(EmptyFileMessage), files)
  {
  }

  /** An empty text is not refused: such a request goes on to be staged and synthesised. */
  lemma EmptyTextNotRefused(cwd: Location, files: Store, req: Request, env: Env)
    requires req.file.Some? && req.file.value.filename != "" && req.text == Some("")
    ensures Validate(req) == Admitted(req.file.value, "")
    ensures Handle(cwd, files, req, env).0.status != 400
  {
  }

  /** The answer is a 400 exactly when validation fails, and then the store is untouched. */
  lemma RefusalIffInvalid(cwd: Location, files: Store, req: Request, env: Env)
    ensures Handle(cwd, files, req, env).0.status == 400 <==> Validate(req).Rejected?
    ensures Validate(req).Rejected? ==> Handle(cwd, files, req, env) == (Reject(Validate(req).reason), files)
  {
  }

  /** An exception while saving the upload is answered with its message, and nothing is written. */
  lemma StagingFaultIsInternalError(cwd: Location, files: Store, req: Request, env: Env)
    requires Validate(req).Admitted? && env.stagingFault.Some?
    ensures Handle(cwd, files, req, env) == (InternalError(env.stagingFault.value), files)
  {
  }

  /**
    What `Handle` answers once the upload was saved: the store holds the
    staged file and then the engine's output, and the answer is a 200 with
    the generated name exactly when the engine did not raise and the output
    file exists.
   */
  lemma AfterSaving(cwd: Location, files: Store, req: Request, env: Env)
    requires Validate(req).Admitted? && env.stagingFault.None?
    ensures var upload := req.file.value;
      var after := AfterEngine(files[StagingLocation(cwd, upload.filename) := upload.content],
                               OutputLocation(cwd, env.ms), env.engine);
      Handle(cwd, files, req, env) ==
        (if env.engine.raises.None? && OutputLocation(cwd, env.ms) in after
         then Response(200, Generated(OutputName(env.ms))) else GenerationFailed,
         after)
  {
  }

  /**
    Once saved, the upload is the file its unmodified filename names below
    the upload folder, holding the uploaded bytes; only an engine that writes
    its output onto that same file replaces them. A relative filename without
    `..` segments keeps the uploaded bytes through synthesis.
   */
  lemma StagedUploadVerbatim(cwd: Location, files: Store, req: Request, env: Env)
    requires Validate(req).Admitted? && env.stagingFault.None?
    ensures var upload, after := req.file.value, Handle(cwd, files, req, env).1;
      var staged := StagingLocation(cwd, upload.filename);
      staged in after &&
      after[staged] == (if staged == OutputLocation(cwd, env.ms) && env.engine.writes.Some?
                        then env.engine.writes.value else upload.content)
    ensures var upload := req.file.value;
      Resolved(cwd) && !IsAbsolute(upload.filename) && ".." !in Split(upload.filename) ==>
        Handle(cwd, files, req, env).1[StagingLocation(cwd, upload.filename)] == upload.content
  {
    AfterSaving(cwd, files, req, env);
    var upload := req.file.value;
    if Resolved(cwd) && !IsAbsolute(upload.filename) && ".." !in Split(upload.filename) {
      StagingNeverOutput(cwd, upload.filename, env.ms);
    }
  }

  /** If the engine raises, the answer is the generic synthesis failure, never a 200. */
  lemma EngineExceptionIsFailure(cwd: Location, files: Store, req: Request, env: Env)
    requires Validate(req).Admitted? && env.stagingFault.None?
    requires env.engine.raises.Some?
    ensures Handle(cwd, files, req, env).0 == GenerationFailed
  {
  }

  /**
    If the engine returns without raising and without writing, and no file
    is at the output path yet, the answer is the generic synthesis failure,
    unless the upload itself was staged onto the output file. That cannot
    happen for a relative filename without `..` segments.
   */
  lemma SilentEngineFailureIsFailure(cwd: Location, files: Store, req: Request, env: Env)
    requires Validate(req).Admitted? && env.stagingFault.None?
    requires env.engine.raises.None? && env.engine.writes.None?
    requires OutputLocation(cwd, env.ms) !in files
    ensures Handle(cwd, files, req, env).0 ==
      if StagingLocation(cwd, req.file.value.filename) == OutputLocation(cwd, env.ms)
      then Response(200, Generated(OutputName(env.ms))) else GenerationFailed
    ensures var filename := req.file.value.filename;
      Resolved(cwd) && !IsAbsolute(filename) && ".." !in Split(filename) ==>
        Handle(cwd, files, req, env).0 == GenerationFailed
  {
    AfterSaving(cwd, files, req, env);
    var filename := req.file.value.filename;
    if Resolved(cwd) && !IsAbsolute(filename) && ".." !in Split(filename) {
      StagingNeverOutput(cwd, filename, env.ms);
    }
  }

  /**
    The existence check only asks whether a file is at the output path, so an
    artifact left there by an earlier request in the same millisecond makes a
    silent engine failure look like success, and that earlier artifact (or the
    upload, when it was staged onto it) is what the returned name designates.
   */
  lemma StaleArtifactPassesExistenceCheck(cwd: Location, files: Store, req: Request, env: Env)
    requires Validate(req).Admitted? && env.stagingFault.None?
    requires env.engine.raises.None? && env.engine.writes.None?
    requires OutputLocation(cwd, env.ms) in files
    ensures Handle(cwd, files, req, env).0 == Response(200, Generated(OutputName(env.ms)))
    ensures Handle(cwd, files, req, env).1[OutputLocation(cwd, env.ms)] ==
      if StagingLocation(cwd, req.file.value.filename) == OutputLocation(cwd, env.ms)
      then req.file.value.content else files[OutputLocation(cwd, env.ms)]
  {
    AfterSaving(cwd, files, req, env);
  }

  /**
    The answer is a 200 exactly when the request is valid, the upload was
    saved, the engine did not raise and a file is at the output path
    afterwards: one the engine wrote, one already there, or the upload itself.
   */
  lemma SuccessIff(cwd: Location, files: Store, req: Request, env: Env)
    ensures Handle(cwd, files, req, env).0.status == 200 <==>
      Validate(req).Admitted? && env.stagingFault.None? && env.engine.raises.None? &&
      (env.engine.writes.Some? || OutputLocation(cwd, env.ms) in files ||
       StagingLocation(cwd, req.file.value.filename) == OutputLocation(cwd, env.ms))
  {
    if Validate(req).Admitted? && env.stagingFault.None? {
      AfterSaving(cwd, files, req, env);
    }
  }

  /**
    Under the conditions of `SuccessIff`, the answer is a 200; it carries the
    bare generated name (not the output path), the name follows the
    `cloned_voice_<digits>.wav` pattern with this request's timestamp, and the
    output file exists, holding what the engine wrote when it wrote.
   */
  lemma SuccessNamesArtifact(cwd: Location, files: Store, req: Request, env: Env)
    requires Validate(req).Admitted? && env.stagingFault.None? && env.engine.raises.None?
    requires env.engine.writes.Some? || OutputLocation(cwd, env.ms) in files ||
      StagingLocation(cwd, req.file.value.filename) == OutputLocation(cwd, env.ms)
    ensures Handle(cwd, files, req, env).0 == Response(200, Generated(OutputName(env.ms)))
    ensures OutputStamp(Handle(cwd, files, req, env).0.body.filename) == Some(env.ms)
    ensures OutputLocation(cwd, env.ms) in Handle(cwd, files, req, env).1
    ensures env.engine.writes.Some? ==>
      Handle(cwd, files, req, env).1[OutputLocation(cwd, env.ms)] == env.engine.writes.value
  {
    AfterSaving(cwd, files, req, env);
    OutputStampOfName(env.ms);
  }

  /** Every answer of the upload handler is a 200, a 400 or a 500. */
  lemma KnownStatuses(cwd: Location, files: Store, req: Request, env: Env)
    ensures Handle(cwd, files, req, env).0.status in {200, 400, 500}
  {
  }

  /** Saving a file and then running the engine keeps every other file as it was. */
  lemma AfterEngineFrame(files: Store, staged: Location, content: seq<byte>, output: Location, run: EngineRun)
    ensures forall loc :: loc in files ==> loc in AfterEngine(files[staged := content], output, run)
    ensures forall loc ::
      (loc in AfterEngine(files[staged := content], output, run) && loc != output && loc != staged) ==>
        loc in files && AfterEngine(files[staged := content], output, run)[loc] == files[loc]
  {
  }

  /**
    The handler deletes nothing, and the only files it can create or change
    are the staged upload and the output file.
   */
  lemma OnlyStagedAndOutputChange(cwd: Location, files: Store, req: Request, env: Env)
    ensures forall loc :: loc in files ==> loc in Handle(cwd, files, req, env).1
    ensures forall loc ::
      (loc in Handle(cwd, files, req, env).1 && loc != OutputLocation(cwd, env.ms) &&
       (req.file.None? || loc != StagingLocation(cwd, req.file.value.filename))) ==>
        loc in files && Handle(cwd, files, req, env).1[loc] == files[loc]
  {
    if Validate(req).Admitted? && env.stagingFault.None? {
      var upload := req.file.value;
      AfterSaving(cwd, files, req, env);
      AfterEngineFrame(files, StagingLocation(cwd, upload.filename), upload.content,
                       OutputLocation(cwd, env.ms), env.engine);
    } else {
      assert Handle(cwd, files, req, env).1 == files;
    }
  }
}
