/**
  How the operating system finds the file a path names. A path is split into
  its segments, relative paths are taken from the server's working directory,
  and the segments are resolved lexically: empty segments and `.` are
  dropped, and `..` removes the segment before it (the root is its own
  parent). Two paths reach the same file exactly when they resolve to the
  same segment list.
 */
module Resolution {
  import opened Paths

  /** The place of a file: the directory names from the root down, then the file's own name. */
  type Location = seq<string>

  /** A segment that names a directory entry, as opposed to `""`, `.` or `..`. */
  predicate Regular(seg: string) {
    seg != "" && seg != "." && seg != ".."
  }

  /** A segment list with nothing left to resolve, such as the working directory `os.getcwd()` reports. */
  predicate Resolved(segs: seq<string>) {
    forall i :: 0 <= i < |segs| ==> Regular(segs[i])
  }

  /** `p.split('/')`: the pieces between separators, empty ones included. */
  function Split(p: string): (segs: seq<string>)
    ensures |segs| > 0
    ensures forall i :: 0 <= i < |segs| ==> IsBare(segs[i])
    decreases |p|
  {
    if p == [] then [[]]
    else
      var init := Split(p[..|p| - 1]);
      var c := p[|p| - 1];
      if c == '/' then init + [[]]
      else init[..|init| - 1] + [init[|init| - 1] + [c]]
  }

  /** `"/".join(segs)` */
  function Unsplit(segs: seq<string>): string
    requires |segs| > 0
  {
    if |segs| == 1 then segs[0] else Unsplit(segs[..|segs| - 1]) + "/" + segs[|segs| - 1]
  }

  /** Splitting at the separators and joining with them gives the path back. */
  lemma {:induction false} SplitRoundTrip(p: string)
    ensures Unsplit(Split(p)) == p
    decreases |p|
  {
    if p != [] {
      var front := p[..|p| - 1];
      var init := Split(front);
      var c := p[|p| - 1];
      SplitRoundTrip(front);
      assert p == front + [c];
      if c == '/' {
        assert Split(p) == init + [[]];
        assert (init + [[]])[..|init|] == init;
      } else if |init| == 1 {
        assert Split(p) == [init[0] + [c]];
      } else {
        var k := |init| - 1;
        var segs := init[..k] + [init[k] + [c]];
        assert Split(p) == segs;
        assert segs[..|segs| - 1] == init[..k];
        assert Unsplit(init) == Unsplit(init[..k]) + "/" + init[k];
      }
    }
  }

  /** A name without separators is a single segment. */
  lemma {:induction false} SplitBare(p: string)
    requires IsBare(p)
    ensures Split(p) == [p]
    decreases |p|
  {
    if p != [] {
      var front := p[..|p| - 1];
      SplitBare(front);
      assert p == front + [p[|p| - 1]];
    }
  }

  /** One more character either starts a new segment or extends the last one. */
  lemma SplitSnoc(p: string, c: char)
    ensures var segs := Split(p);
      Split(p + [c]) == if c == '/' then segs + [[]] else segs[..|segs| - 1] + [segs[|segs| - 1] + [c]]
  {
    assert (p + [c])[..|p|] == p;
  }

  /** Extending the last segment of `sa + sf` extends the last segment of `sf`. */
  lemma ExtendLast(sa: seq<string>, sf: seq<string>, c: char)
    requires |sf| > 0
    ensures var s := sa + sf;
      s[..|s| - 1] + [s[|s| - 1] + [c]] == sa + (sf[..|sf| - 1] + [sf[|sf| - 1] + [c]])
  {
    var s := sa + sf;
    assert s[..|s| - 1] == sa + sf[..|sf| - 1];
    assert s[|s| - 1] == sf[|sf| - 1];
  }

  /** A separator splits the path into the segments of either side. */
  lemma {:induction false} SplitAtSlash(a: string, b: string)
    ensures Split(a + "/" + b) == Split(a) + Split(b)
    decreases |b|
  {
    if b == [] {
      SplitSnoc(a, '/');
      assert a + "/" + b == a + ['/'];
    } else {
      var front, c := b[..|b| - 1], b[|b| - 1];
      var ab := a + "/" + front;
      assert b == front + [c];
      assert a + "/" + b == ab + [c];
      SplitAtSlash(a, front);
      SplitSnoc(ab, c);
      SplitSnoc(front, c);
      if c != '/' {
        ExtendLast(Split(a), Split(front), c);
      } else {
        assert Split(a) + Split(front) + [[]] == Split(a) + (Split(front) + [[]]);
      }
    }
  }

  /** Lexical resolution of the segments in `rest`, starting from the directory `done`. */
  function Resolve(done: Location, rest: seq<string>): (loc: Location)
    ensures Resolved(done) ==> Resolved(loc)
    decreases |rest|
  {
    if rest == [] then done
    else if rest[0] == "" || rest[0] == "." then Resolve(done, rest[1..])
    else if rest[0] == ".." then Resolve(if done == [] then [] else done[..|done| - 1], rest[1..])
    else Resolve(done + [rest[0]], rest[1..])
  }

  /** The file that `p` names when the working directory is `cwd`. */
  function Locate(cwd: Location, p: string): Location {
    Resolve([], (if IsAbsolute(p) then [] else cwd) + Split(p))
  }

  /** Segments with nothing to resolve are taken over as they are. */
  lemma {:induction false} ResolveRegular(done: Location, segs: seq<string>, rest: seq<string>)
    requires Resolved(segs)
    ensures Resolve(done, segs + rest) == Resolve(done + segs, rest)
    decreases |segs|
  {
    if segs != [] {
      assert Regular(segs[0]);
      assert Resolved(segs[1..]) by {
        forall i | 0 <= i < |segs[1..]| ensures Regular(segs[1..][i]) {
          assert segs[1..][i] == segs[i + 1];
        }
      }
      assert (segs + rest)[0] == segs[0];
      assert (segs + rest)[1..] == segs[1..] + rest;
      assert done + [segs[0]] + segs[1..] == done + segs;
      assert Resolve(done, segs + rest) == Resolve(done + [segs[0]], segs[1..] + rest);
      ResolveRegular(done + [segs[0]], segs[1..], rest);
    } else {
      assert segs + rest == rest && done + segs == done;
    }
  }

  /** Without `..` segments, resolution never leaves the directory it starts from. */
  lemma {:induction false} ResolveStaysBelow(done: Location, rest: seq<string>)
    requires ".." !in rest
    ensures |Resolve(done, rest)| >= |done| && Resolve(done, rest)[..|done|] == done
    decreases |rest|
  {
    if rest != [] {
      assert rest[0] in rest;
      assert ".." !in rest[1..] by {
        forall i | 0 <= i < |rest[1..]| ensures rest[1..][i] != ".." {
          assert rest[1..][i] == rest[i + 1];
        }
      }
      if rest[0] == "" || rest[0] == "." {
        ResolveStaysBelow(done, rest[1..]);
      } else {
        ResolveStaysBelow(done + [rest[0]], rest[1..]);
        assert (done + [rest[0]])[..|done|] == done;
      }
    }
  }

  /** A resolved location is reached by resolving it from the root. */
  lemma ResolveResolved(loc: Location)
    requires Resolved(loc)
    ensures Resolve([], loc) == loc
  {
    ResolveRegular([], loc, []);
    assert loc + [] == loc;
  }
}
