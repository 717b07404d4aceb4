/** The parts of Go's `path/filepath` the core relies on, for a Unix host, where
    the path separator is '/'. */
module FilePaths {

  const Separator: char := '/'

  /** `filepath.ToSlash`: every separator becomes '/'. With '/' as the
      separator that leaves the path as it is. */
  function ToSlash(p: string): (r: string)
    ensures |r| == |p|
    ensures forall i | 0 <= i < |p| :: r[i] == if p[i] == Separator then '/' else p[i]
  {
    p
  }

  /** `filepath.IsAbs`. */
  predicate IsAbs(p: string) {
    |p| > 0 && p[0] == Separator
  }

  /** What `filepath.Abs` returns when it succeeds. */
  type AbsPath = p: string | IsAbs(p) witness "/"

  /** `filepath.Ext`: the suffix from the last '.' of the final path element on,
      or "" when that element has no '.'. */
  function Ext(path: string): (e: string)
    ensures e == "" || (e[0] == '.' && |e| <= |path| && path[|path| - |e|..] == e)
    ensures forall i | 0 <= i < |e| :: e[i] != Separator
    ensures forall i | 1 <= i < |e| :: e[i] != '.'
    ensures e == "" ==> forall i | 0 <= i < |path| && path[i] == '.' :: exists j :: i < j < |path| && path[j] == Separator
  {
    ExtScan(path, |path|)
  }

  /** The scan of `filepath.Ext` from position `n - 1` down, over a tail
      `path[n..]` that has neither a '.' nor a separator. */
  function ExtScan(path: string, n: nat): (e: string)
    requires n <= |path|
    requires forall i | n <= i < |path| :: path[i] != '.' && path[i] != Separator
    ensures e == "" || (e[0] == '.' && |e| <= |path| && path[|path| - |e|..] == e)
    ensures forall i | 0 <= i < |e| :: e[i] != Separator
    ensures forall i | 1 <= i < |e| :: e[i] != '.'
    ensures e == "" ==> forall i | 0 <= i < |path| && path[i] == '.' :: exists j :: i < j < |path| && path[j] == Separator
  {
    if n == 0 then ""
    else if path[n - 1] == Separator then ""
    else if path[n - 1] == '.' then path[n - 1..]
    else ExtScan(path, n - 1)
  }
}
