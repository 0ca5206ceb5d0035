/** POSIX path handling from Python's `os.path` as the launcher uses it. */
module Paths {
  import opened Strings

  /** `os.path.join(a, b)`. */
  function PathJoin(a: string, b: string): (r: string)
    ensures EndsWith(r, b)
  {
    if |b| > 0 && b[0] == '/' then b
    else if a == "" || EndsWith(a, "/") then a + b
    else a + "/" + b
  }

  predicate AllSlashes(s: string)
  {
    forall i :: 0 <= i < |s| ==> s[i] == '/'
  }

  function StripTrailingSlashes(s: string): (r: string)
    ensures IsPrefix(r, s)
  {
    if |s| > 0 && s[|s| - 1] == '/' then StripTrailingSlashes(s[..|s| - 1]) else s
  }

  lemma JoinRelative(a: string, b: string)
    requires a != "" && !EndsWith(a, "/")
    requires |b| > 0 && b[0] != '/'
    ensures PathJoin(a, b) == a + "/" + b
  {
  }

  /**
   * The directory part `glob.glob` reports for the pattern `os.path.join(dir, name)`:
   * the head of `os.path.split`, whose trailing slashes are dropped unless it
   * consists of slashes only.
   */
  function GlobDir(dir: string): (r: string)
    ensures !EndsWith(dir, "/") ==> r == dir
  {
    if dir == "" || AllSlashes(dir) then dir else StripTrailingSlashes(dir)
  }
}
