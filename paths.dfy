/** The parts of Go's `path/filepath` package (Unix flavour, separator '/') that the
    command-line layer relies on. */
module Paths {

  const Separator: char := '/'

  /** `filepath.Ext`: the suffix of the final path element that starts at its last '.',
      or "" when that element has no '.'. */
  function Ext(path: string): (r: string)
    ensures r != [] ==> r[0] == '.' && Separator !in r && '.' !in r[1..]
  {
    ExtBefore(path, |path|)
  }

  /** The scan of `filepath.Ext`, from position `i - 1` backwards: the suffix starting at the
      first '.' found before a separator, or "" when there is none. */
  function ExtBefore(path: string, i: nat): (r: string)
    requires i <= |path|
    requires Separator !in path[i..] && '.' !in path[i..]
    ensures r != [] ==> r[0] == '.' && Separator !in r && '.' !in r[1..]
    decreases i
  {
    if i == 0 || path[i - 1] == Separator then []
    else if path[i - 1] == '.' then
      assert path[i - 1..] == [path[i - 1]] + path[i..];
      path[i - 1..]
    else
      assert path[i - 1..] == [path[i - 1]] + path[i..];
      ExtBefore(path, i - 1)
  }

  /** `filepath.IsAbs`. */
  predicate IsAbs(path: string) { |path| > 0 && path[0] == Separator }

  /** `filepath.Split`: everything up to and including the last separator, and the rest. */
  function Split(path: string): (r: (string, string))
    ensures r.0 + r.1 == path
    ensures Separator !in r.1
    ensures r.0 == [] || r.0[|r.0| - 1] == Separator
  {
    if path == [] then ([], [])
    else if path[|path| - 1] == Separator then (path, [])
    else
      var (dir, file) := Split(path[..|path| - 1]);
      assert path == path[..|path| - 1] + [path[|path| - 1]];
      (dir, file + [path[|path| - 1]])
  }

  /** `filepath.Join` of two elements: empty elements are dropped and the two are
      separated by exactly one separator at the seam. */
  function Join(dir: string, file: string): (r: string)
    ensures dir == [] ==> r == file
    ensures file == [] ==> r == dir
  {
    if dir == [] then file
    else if file == [] then dir
    else if dir[|dir| - 1] == Separator then dir + file
    else dir + [Separator] + file
  }

  /** Splitting a path and joining the two parts again gives back the path. */
  lemma SplitJoinRoundTrip(path: string)
    ensures Join(Split(path).0, Split(path).1) == path
  {
  }
}
