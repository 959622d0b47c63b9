/** The export's output directory, as a map from paths to file bodies. */
module FileTree {
  import opened Interfaces

  /** A path, one string per segment. */
  type Path = seq<string>

  /** What a written JSON file holds. The identifier rewriting applied before
      serialising (replaceObjectIDs) is not part of this model: a body records
      the value it was applied to, and `normalized` says whether it was. */
  datatype FileBody =
    | DocFile(doc: Doc, normalized: bool)
    | ProjectFile(project: Project, normalized: bool)

  type Files = map<Path, FileBody>

  /** `p` lies inside directory `dir` (or is `dir` itself). */
  predicate Under(dir: Path, p: Path)
  {
    |dir| <= |p| && p[..|dir|] == dir
  }

  /** `f` and `g` agree at path `p`: both lack it, or both hold the same body. */
  predicate SameAt(f: Files, g: Files, p: Path)
  {
    (p in f <==> p in g) && (p in f ==> f[p] == g[p])
  }

  /** `files` with the tree under `dir` deleted. */
  function Removed(files: Files, dir: Path): Files
  {
    map p | p in files && !Under(dir, p) :: files[p]
  }

  /** The file system the exporter writes to. Creating a folder is not
      modelled: a file can be written at any path. */
  class Disk {
    var files: Files

    constructor (initial: Files)
      ensures files == initial
    {
      files := initial;
    }

    /** Writes (or overwrites) one file. */
    method Write(p: Path, body: FileBody)
      modifies this
      ensures files == old(files)[p := body]
    {
      files := files[p := body];
    }

    /** Removes `dir` and everything under it; a missing `dir` changes nothing. */
    method RemoveTree(dir: Path)
      modifies this
      ensures files == Removed(old(files), dir)
    {
      files := Removed(files, dir);
    }
  }
}
