/**
  The filesystem the server reads and writes, reduced to what the request
  handlers observe: which files exist and the bytes in each. A file is found
  by the location its path resolves to, so two spellings of one path
  (`uploads/../outputs/x` and `outputs/x`) reach the same file. Relative
  paths given to `file.save`, the engine and `os.path.exists` start at the
  process's working directory; Flask's `send_from_directory` starts them at
  the application's root path, the directory holding app.py.
 */
module Files {
  import opened Wrappers
  import opened Resolution

  newtype byte = x: int | 0 <= x < 256

  /** Each existing file's location maps to its contents. */
  type Store = map<Location, seq<byte>>

  class Disk {
    /** The server's working directory, against which relative paths resolve. */
    const cwd: Location
    /** The application's root path (`app.root_path`), the directory of app.py. */
    const root: Location
    var files: Store

    constructor (cwd: Location, root: Location, initial: Store)
      ensures this.cwd == cwd && this.root == root && files == initial
    {
      this.cwd := cwd;
      this.root := root;
      files := initial;
    }

    /** Create or overwrite the file at `path` (`file.save`, or the engine writing its output). */
    method Write(path: string, content: seq<byte>)
      modifies this
      ensures files == old(files)[Locate(cwd, path) := content]
    {
      files := files[Locate(cwd, path) := content];
    }

    /** `os.path.exists(path)` */
    method Exists(path: string) returns (present: bool)
      ensures present <==> Locate(cwd, path) in files
    {
      present := Locate(cwd, path) in files;
    }

    /** Read the whole file at `path` taken relative to the directory `dir`, or None when there is none. */
    method Read(dir: Location, path: string) returns (content: Option<seq<byte>>)
      ensures content.Some? <==> Locate(dir, path) in files
      ensures content.Some? ==> content.value == files[Locate(dir, path)]
    {
      var loc := Locate(dir, path);
      if loc in files {
        content := Some(files[loc]);
      } else {
        content := None;
      }
    }
  }
}
