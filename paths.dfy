/** `os.path.join` with two arguments, as POSIX Python defines it. */
module Paths {
  import opened Text

  predicate IsAbsolute(p: string) {
    p != [] && p[0] == '/'
  }

  /** What is put between the directory and a relative name: a `/`, unless the
      directory is empty or already ends with one. */
  function JoinSeparator(a: string): (sep: string)
    ensures sep == "" <==> a == [] || a[|a| - 1] == '/'
    ensures sep == "" || sep == "/"
  {
    if a == [] || a[|a| - 1] == '/' then "" else "/"
  }

  /** An absolute second part replaces the first; otherwise the two are joined with
      `JoinSeparator`. */
  function PathJoin(a: string, b: string): (r: string)
    ensures IsAbsolute(b) ==> r == b
    ensures !IsAbsolute(b) ==> EndsWith(r, b) && StartsWith(r, a)
  {
    if IsAbsolute(b) then b else a + JoinSeparator(a) + b
  }

  /** Joining relative names to one directory never makes two names collide. */
  lemma PathJoinInjective(a: string, b1: string, b2: string)
    requires !IsAbsolute(b1) && !IsAbsolute(b2)
    requires PathJoin(a, b1) == PathJoin(a, b2)
    ensures b1 == b2
  {
    var p := a + JoinSeparator(a);
    assert b1 == (p + b1)[|p|..];
    assert b2 == (p + b2)[|p|..];
  }
}
