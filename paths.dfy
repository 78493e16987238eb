/**
  POSIX path operations the server relies on: `os.path.join` with two
  components, and the last component of a path (what `os.path.basename`
  returns).
 */
module Paths {

  /** A path whose last component is itself: it holds no separator. */
  predicate IsBare(p: string) {
    forall i :: 0 <= i < |p| ==> p[i] != '/'
  }

  /** A POSIX path is absolute when it starts with the separator. */
  predicate IsAbsolute(p: string) {
    |p| > 0 && p[0] == '/'
  }

  /**
    `os.path.join(dir, p)`: an absolute `p` discards `dir`; otherwise `p` is
    appended, with a separator unless `dir` is empty or already ends in one.
   */
  function Join(dir: string, p: string): (r: string)
    ensures IsAbsolute(p) ==> r == p
    ensures !IsAbsolute(p) ==> |dir| + |p| <= |r| <= |dir| + 1 + |p|
    ensures !IsAbsolute(p) ==> r[..|dir|] == dir && r[|r| - |p|..] == p
    ensures !IsAbsolute(p) && |r| == |dir| + 1 + |p| ==> r[|dir|] == '/'
    ensures !IsAbsolute(p) ==> (|r| == |dir| + |p| <==> dir == [] || dir[|dir| - 1] == '/')
  {
    if IsAbsolute(p) then p
    else if dir == [] || dir[|dir| - 1] == '/' then dir + p
    else dir + "/" + p
  }

  /** The last component of `p`: everything after its last separator. */
  function Basename(p: string): (r: string)
    ensures |r| <= |p| && r == p[|p| - |r|..]
    ensures IsBare(r)
    ensures |r| < |p| ==> p[|p| - |r| - 1] == '/'
    decreases |p|
  {
    if p == [] || p[|p| - 1] == '/' then []
    else Basename(p[..|p| - 1]) + [p[|p| - 1]]
  }

  /** A bare name is its own last component. */
  lemma BasenameOfBare(p: string)
    requires IsBare(p)
    ensures Basename(p) == p
  {
  }

  /** Whatever precedes a separator does not affect the last component. */
  lemma {:induction false} BasenameAppend(a: string, p: string)
    requires a == [] || a[|a| - 1] == '/'
    ensures Basename(a + p) == Basename(p)
    decreases |p|
  {
    if p == [] {
      assert a + p == a;
    } else {
      var init := p[..|p| - 1];
      assert (a + p)[..|a + p| - 1] == a + init;
      assert (a + p)[|a + p| - 1] == p[|p| - 1];
      BasenameAppend(a, init);
    }
  }

  /** Joining never changes the last component of the joined name. */
  lemma JoinKeepsBasename(dir: string, p: string)
    ensures Basename(Join(dir, p)) == Basename(p)
  {
    if !IsAbsolute(p) {
      if dir == [] || dir[|dir| - 1] == '/' {
        BasenameAppend(dir, p);
      } else {
        assert Join(dir, p) == (dir + "/") + p;
        BasenameAppend(dir + "/", p);
      }
    }
  }

  /** A relative name joined under a folder that does not end in a separator. */
  lemma JoinUnderFolder(dir: string, p: string)
    requires dir != [] && dir[|dir| - 1] != '/'
    requires !IsAbsolute(p)
    ensures Join(dir, p) == dir + "/" + p
  {
  }
}
