/** The part of a filesystem the tool works on: what each path names. */
module Files {

  type Path = string
  type Content = seq<int>

  datatype Node = Regular(data: Content) | Symlink | Special

  type Fs = map<Path, Node>

  /** The path lies below the directory. */
  predicate InDir(dir: Path, p: Path) { dir + "/" <= p }
}
