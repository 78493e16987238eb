/**
  Where the server keeps its files: the two folders created at start-up
  (app.py:9-12) and the name every generated artifact gets (app.py:236-237).
 */
module Layout {
  import opened Wrappers
  import opened Paths
  import opened Digits
  import opened Resolution

  const UploadFolder := "uploads"
  const OutputFolder := "outputs"

  const OutputPrefix := "cloned_voice_"
  const OutputExtension := ".wav"

  /**
    `f"cloned_voice_{ms}.wav"`, with `ms` the whole milliseconds of the
    clock reading taken as the request is served.
   */
  function OutputName(ms: nat): (name: string)
    ensures |name| > |OutputPrefix| + |OutputExtension|
    ensures IsBare(name) && !IsAbsolute(name)
  {
    var digits := Decimal(ms);
    var name := OutputPrefix + digits + OutputExtension;
    assert forall i :: |OutputPrefix| <= i < |OutputPrefix| + |digits| ==>
      name[i] == digits[i - |OutputPrefix|];
    name
  }

  /**
    The pattern `cloned_voice_<digits>.wav` every generated name follows: the
    timestamp a name carries, or None for a name of any other form.
   */
  function OutputStamp(name: string): (stamp: Option<nat>)
  {
    var lo, hi := |OutputPrefix|, |name| - |OutputExtension|;
    if lo < hi && name[..lo] == OutputPrefix && name[hi..] == OutputExtension && Canonical(name[lo..hi])
    then Some(Value(name[lo..hi]))
    else None
  }

  /** `os.path.join(OUTPUT_FOLDER, unique_filename)` */
  function OutputPath(ms: nat): string {
    Join(OutputFolder, OutputName(ms))
  }

  /** `os.path.join(UPLOAD_FOLDER, file.filename)`: the client's name, unmodified. */
  function StagingPath(filename: string): string {
    Join(UploadFolder, filename)
  }

  /** A generated name follows the pattern and carries its own timestamp. */
  lemma {:induction false} OutputStampOfName(ms: nat)
    ensures OutputStamp(OutputName(ms)) == Some(ms)
  {
    var name, digits := OutputName(ms), Decimal(ms);
    var lo, hi := |OutputPrefix|, |name| - |OutputExtension|;
    assert name == OutputPrefix + digits + OutputExtension;
    assert name[..lo] == OutputPrefix;
    assert name[lo..hi] == digits;
    assert name[hi..] == OutputExtension;
    DecimalRoundTrip(ms);
  }

  /** Every name that follows the pattern is the name generated for its timestamp. */
  lemma {:induction false} OutputNameOfStamp(name: string)
    requires OutputStamp(name).Some?
    ensures name == OutputName(OutputStamp(name).value)
  {
    var lo, hi := |OutputPrefix|, |name| - |OutputExtension|;
    var digits := name[lo..hi];
    CanonicalRoundTrip(digits);
    assert name == name[..lo] + digits + name[hi..];
  }

  /** Requests served in different milliseconds get different artifact names. */
  lemma OutputNameInjective(a: nat, b: nat)
    requires a != b
    ensures OutputName(a) != OutputName(b)
  {
    OutputStampOfName(a);
    OutputStampOfName(b);
  }

  /**
    The output path is the generated name directly under the output folder,
    and the name handed back to the client is exactly that path's last
    component.
   */
  lemma OutputPathShape(ms: nat)
    ensures OutputPath(ms) == OutputFolder + "/" + OutputName(ms)
    ensures Basename(OutputPath(ms)) == OutputName(ms)
  {
    JoinUnderFolder(OutputFolder, OutputName(ms));
    JoinKeepsBasename(OutputFolder, OutputName(ms));
    BasenameOfBare(OutputName(ms));
  }

  /**
    The upload is staged under the client's filename verbatim: below the
    upload folder when the name is relative, and at the name itself when it
    is absolute.
   */
  lemma StagingPathVerbatim(filename: string)
    ensures !IsAbsolute(filename) ==> StagingPath(filename) == UploadFolder + "/" + filename
    ensures IsAbsolute(filename) ==> StagingPath(filename) == filename
  {
  }

  /** The file the staged upload is written to, with the server's working directory `cwd`. */
  function StagingLocation(cwd: Location, filename: string): Location {
    Locate(cwd, StagingPath(filename))
  }

  /** The file the engine is asked to write, with the server's working directory `cwd`. */
  function OutputLocation(cwd: Location, ms: nat): Location {
    Locate(cwd, OutputPath(ms))
  }

  /** A relative path below a separator-free directory name has that name as its first segment. */
  lemma SplitUnder(dir: string, p: string)
    requires IsBare(dir)
    ensures Split(dir + "/" + p) == [dir] + Split(p)
  {
    SplitAtSlash(dir, p);
    SplitBare(dir);
  }

  /** The working directory followed by more resolved segments is itself resolved. */
  lemma ResolvedExtend(cwd: Location, more: seq<string>)
    requires Resolved(cwd) && Resolved(more)
    ensures Resolved(cwd + more)
  {
    var loc := cwd + more;
    forall i | 0 <= i < |loc| ensures Regular(loc[i]) {
      if i < |cwd| { assert loc[i] == cwd[i]; } else { assert loc[i] == more[i - |cwd|]; }
    }
  }

  /** The output file is the generated name inside the output folder of the working directory. */
  lemma OutputLocationShape(cwd: Location, ms: nat)
    requires Resolved(cwd)
    ensures OutputLocation(cwd, ms) == cwd + [OutputFolder, OutputName(ms)]
  {
    var name := OutputName(ms);
    OutputPathShape(ms);
    SplitUnder(OutputFolder, name);
    SplitBare(name);
    assert Split(OutputPath(ms)) == [OutputFolder, name];
    assert !IsAbsolute(OutputPath(ms));
    assert Resolved([OutputFolder, name]) by { assert |name| > 2; }
    ResolvedExtend(cwd, [OutputFolder, name]);
    ResolveResolved(cwd + [OutputFolder, name]);
  }

  /** Requests served in different milliseconds write different files. */
  lemma OutputLocationInjective(cwd: Location, a: nat, b: nat)
    requires Resolved(cwd) && a != b
    ensures OutputLocation(cwd, a) != OutputLocation(cwd, b)
  {
    OutputLocationShape(cwd, a);
    OutputLocationShape(cwd, b);
    OutputNameInjective(a, b);
    assert OutputLocation(cwd, a)[|cwd| + 1] == OutputName(a);
    assert OutputLocation(cwd, b)[|cwd| + 1] == OutputName(b);
  }

  /** Resolving a path below a directory name of the working directory starts from that directory. */
  lemma LocateUnder(cwd: Location, dir: string, p: string)
    requires Resolved(cwd) && IsBare(dir) && Regular(dir)
    ensures Locate(cwd, dir + "/" + p) == Resolve(cwd + [dir], Split(p))
  {
    var head := cwd + [dir];
    SplitUnder(dir, p);
    assert (dir + "/" + p)[0] == dir[0];
    assert cwd + Split(dir + "/" + p) == head + Split(p);
    ResolvedExtend(cwd, [dir]);
    ResolveRegular([], head, Split(p));
    assert [] + head == head;
  }

  /**
    A relative filename without `..` segments is staged inside the upload
    folder, so never onto the file an artifact is written to.
   */
  lemma StagingNeverOutput(cwd: Location, filename: string, ms: nat)
    requires Resolved(cwd) && !IsAbsolute(filename) && ".." !in Split(filename)
    ensures StagingLocation(cwd, filename) != OutputLocation(cwd, ms)
  {
    var staged := StagingLocation(cwd, filename);
    assert staged[|cwd|] == UploadFolder by {
      var head := cwd + [UploadFolder];
      StagingPathVerbatim(filename);
      LocateUnder(cwd, UploadFolder, filename);
      ResolveStaysBelow(head, Split(filename));
      assert staged[..|head|] == head;
    }
    assert OutputLocation(cwd, ms)[|cwd|] == OutputFolder by {
      OutputLocationShape(cwd, ms);
    }
  }

  /** A path of three separator-free names has those three segments. */
  lemma SplitThree(a: string, b: string, c: string)
    requires IsBare(a) && IsBare(b) && IsBare(c)
    ensures Split(a + "/" + (b + "/" + c)) == [a, b, c]
  {
    SplitUnder(a, b + "/" + c);
    SplitUnder(b, c);
    SplitBare(c);
  }

  /** `../outputs/<name>` spelled as three names joined by separators. */
  lemma TraversalSpelling(name: string)
    ensures "../outputs/" + name == ".." + "/" + (OutputFolder + "/" + name)
  {
    assert "../outputs/" == ".." + "/" + OutputFolder + "/";
  }

  /** The segments of `../outputs/<name>`. */
  lemma TraversalSegments(name: string)
    requires IsBare(name)
    ensures Split("../outputs/" + name) == ["..", OutputFolder, name]
  {
    TraversalSpelling(name);
    SplitThree("..", OutputFolder, name);
  }

  /**
    A filename that climbs out of the upload folder can name the output file:
    `../outputs/<name>` is staged exactly where the artifact `<name>` lives.
   */
  lemma TraversalReachesOutput(cwd: Location, ms: nat)
    requires Resolved(cwd)
    ensures StagingLocation(cwd, "../outputs/" + OutputName(ms)) == OutputLocation(cwd, ms)
  {
    var name := OutputName(ms);
    var filename := "../outputs/" + name;
    var head := cwd + [UploadFolder];
    assert StagingPath(filename) == UploadFolder + "/" + filename by {
      assert filename[0] == '.';
      StagingPathVerbatim(filename);
    }
    LocateUnder(cwd, UploadFolder, filename);
    TraversalSegments(name);
    assert StagingLocation(cwd, filename) == Resolve(head, ["..", OutputFolder, name]);
    assert head[..|head| - 1] == cwd;
    assert Resolve(head, ["..", OutputFolder, name]) == Resolve(cwd, [OutputFolder, name]);
    assert Resolved([OutputFolder, name]) by { assert |name| > 2; }
    ResolveRegular(cwd, [OutputFolder, name], []);
    assert [OutputFolder, name] + [] == [OutputFolder, name];
    OutputLocationShape(cwd, ms);
  }
}
