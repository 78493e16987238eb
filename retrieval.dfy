/**
  GET /outputs/<filename>: `serve_output` (app.py:281-287) has the file
  under the output folder sent and turns every failure into a 404. Flask
  takes the output folder relative to the application's root path, the
  directory of app.py, and not relative to the working directory the upload
  handler writes in.

  The `<filename>` route segment is never empty and never holds a separator.
  Sending refuses the name `..`, since that name would leave the folder; the
  name `.` is the folder itself, never a file; and sending fails for a name
  that names no file. These failures are exceptions that the handler answers
  with "File not found".
 */
module Retrieval {
  import opened Wrappers
  import opened Paths
  import opened Resolution
  import opened Layout
  import opened Files
  import opened Responses
  import opened Intake
  import opened Synthesis

  /** A name the `<filename>` route segment can deliver to the handler. */
  predicate RouteName(filename: string) {
    filename != "" && IsBare(filename)
  }

  /** A route name that can never name a file in the output folder: the folder itself or its parent. */
  predicate Refused(filename: string) {
    filename == "." || filename == ".."
  }

  /**
    The answer for `filename`, when statting and opening the file either
    succeed or fail (`readFault`): a 200 carrying the file's bytes, or "File
    not found" for a refused name, an absent file and a failed open alike.
    The output folder is taken
    relative to the application's root path `root`.
   */
  function Serve(root: Location, files: Store, filename: string, readFault: bool): (r: Response)
    requires RouteName(filename)
    ensures var loc := Locate(root, Join(OutputFolder, filename));
      r.status == 200 <==> !Refused(filename) && !readFault && loc in files
    ensures r.status == 200 ==> r.body == Audio(files[Locate(root, Join(OutputFolder, filename))])
    ensures r.status != 200 ==> r == NotFound
  {
    var loc := Locate(root, Join(OutputFolder, filename));
    if Refused(filename) || readFault || loc !in files then NotFound else Response(200, Audio(files[loc]))
  }

  /** The GET /outputs/<filename> handler. */
  method ServeOutput(disk: Disk, filename: string, readFault: bool) returns (resp: Response)
    requires RouteName(filename)
    ensures resp == Serve(disk.root, disk.files, filename, readFault)
  {
    if Refused(filename) {
      return NotFound;
    }
    var content := disk.Read(disk.root, Join(OutputFolder, filename));
    if readFault || content.None? {
      return NotFound;
    }
    return Response(200, Audio(content.value));
  }

  /** The name of an artifact is served from the artifact's file below the root path. */
  lemma ServedFromOutputLocation(root: Location, files: Store, ms: nat)
    ensures RouteName(OutputName(ms))
    ensures Serve(root, files, OutputName(ms), false) ==
      if OutputLocation(root, ms) in files then Response(200, Audio(files[OutputLocation(root, ms)])) else NotFound
  {
    assert !Refused(OutputName(ms)) by { assert |OutputName(ms)| > 2; }
  }

  /**
    Fetching the name a successful upload returned reads the artifact's file
    below the root path. When the server runs in the directory of app.py,
    that is the file the engine was asked to write, so the fetch yields the
    artifact, and exactly the bytes the engine wrote when it wrote.
   */
  lemma FetchAfterSuccess(cwd: Location, root: Location, files: Store, req: Request, env: Env)
    requires Validate(req).Admitted? && env.stagingFault.None? && env.engine.raises.None?
    requires env.engine.writes.Some? || OutputLocation(cwd, env.ms) in files ||
      StagingLocation(cwd, req.file.value.filename) == OutputLocation(cwd, env.ms)
    ensures var (resp, after) := Handle(cwd, files, req, env);
      resp.body.Generated? && RouteName(resp.body.filename) &&
      Serve(root, after, resp.body.filename, false) ==
        (if OutputLocation(root, env.ms) in after
         then Response(200, Audio(after[OutputLocation(root, env.ms)])) else NotFound)
    ensures var (resp, after) := Handle(cwd, files, req, env);
      root == cwd ==>
        Serve(root, after, resp.body.filename, false) == Response(200, Audio(after[OutputLocation(cwd, env.ms)])) &&
        (env.engine.writes.Some? ==>
           Serve(root, after, resp.body.filename, false) == Response(200, Audio(env.engine.writes.value)))
  {
    SuccessNamesArtifact(cwd, files, req, env);
    ServedFromOutputLocation(root, Handle(cwd, files, req, env).1, env.ms);
  }

  /** Different resolved directories hold different artifact files for the same name. */
  lemma OutputLocationsApart(cwd: Location, root: Location, ms: nat)
    requires Resolved(cwd) && Resolved(root) && cwd != root
    ensures OutputLocation(cwd, ms) != OutputLocation(root, ms)
  {
    OutputLocationShape(cwd, ms);
    OutputLocationShape(root, ms);
    var tail := [OutputFolder, OutputName(ms)];
    assert (cwd + tail)[..|cwd|] == cwd;
    assert (root + tail)[..|root|] == root;
  }

  /**
    When the server runs outside the directory of app.py, an upload whose
    artifact the engine wrote is answered with a 200, yet fetching the
    returned name is a 404: the engine wrote below the working directory and
    the route reads below the root path, where no such file is.
   */
  lemma FetchMissesOutsideRoot(cwd: Location, root: Location, files: Store, req: Request, env: Env)
    requires Resolved(cwd) && Resolved(root) && cwd != root
    requires Validate(req).Admitted? && env.stagingFault.None?
    requires env.engine.raises.None? && env.engine.writes.Some?
    requires OutputLocation(root, env.ms) !in files
    requires StagingLocation(cwd, req.file.value.filename) != OutputLocation(root, env.ms)
    ensures Handle(cwd, files, req, env).0 == Response(200, Generated(OutputName(env.ms)))
    ensures Serve(root, Handle(cwd, files, req, env).1, OutputName(env.ms), false) == NotFound
  {
    SuccessNamesArtifact(cwd, files, req, env);
    AfterSaving(cwd, files, req, env);
    OutputLocationsApart(cwd, root, env.ms);
    ServedFromOutputLocation(root, Handle(cwd, files, req, env).1, env.ms);
  }

  /** A refused name, an absent file or a failed open gives 404, never a server error. */
  lemma MissingArtifactNotFound(root: Location, files: Store, filename: string, readFault: bool)
    requires RouteName(filename)
    requires Refused(filename) || Locate(root, Join(OutputFolder, filename)) !in files || readFault
    ensures Serve(root, files, filename, readFault) == NotFound
  {
  }

  /**
    An upload named `../outputs/cloned_voice_<ms>.wav` is itself saved as the
    output file. An engine that then returns without writing still gets a
    200, and, when the server runs in the directory of app.py, fetching the
    returned name serves the uploaded sample.
   */
  lemma TraversalUploadServedAsArtifact(cwd: Location, root: Location, files: Store, req: Request, env: Env)
    requires Resolved(cwd)
    requires req.file.Some? && req.text.Some? && req.file.value.filename == "../outputs/" + OutputName(env.ms)
    requires env.stagingFault.None? && env.engine.raises.None? && env.engine.writes.None?
    ensures Handle(cwd, files, req, env).0 == Response(200, Generated(OutputName(env.ms)))
    ensures root == cwd ==>
      Serve(root, Handle(cwd, files, req, env).1, OutputName(env.ms), false) ==
        Response(200, Audio(req.file.value.content))
  {
    TraversalReachesOutput(cwd, env.ms);
    AfterSaving(cwd, files, req, env);
    SuccessNamesArtifact(cwd, files, req, env);
    ServedFromOutputLocation(root, Handle(cwd, files, req, env).1, env.ms);
  }

  /**
    An upload named after an earlier artifact, `../outputs/cloned_voice_<older>.wav`,
    replaces that artifact: when the server runs in the directory of app.py,
    fetching the earlier name right after this request serves the upload.
   */
  lemma TraversalUploadReplacesArtifact(cwd: Location, root: Location, files: Store, req: Request, env: Env, older: nat)
    requires Resolved(cwd) && older != env.ms
    requires req.file.Some? && req.text.Some? && req.file.value.filename == "../outputs/" + OutputName(older)
    requires env.stagingFault.None?
    ensures root == cwd ==>
      Serve(root, Handle(cwd, files, req, env).1, OutputName(older), false) ==
        Response(200, Audio(req.file.value.content))
  {
    TraversalReachesOutput(cwd, older);
    OutputLocationInjective(cwd, older, env.ms);
    StagedUploadVerbatim(cwd, files, req, env);
    ServedFromOutputLocation(root, Handle(cwd, files, req, env).1, older);
  }
}
