/** `os.path.join` with two arguments, as POSIX Python defines it. */
module Paths {

  /** Join `b` onto `a`: an absolute `b` replaces `a`; otherwise a single
      separator is inserted unless `a` is empty or already ends in one. */
  function Join(a: string, b: string): (r: string)
    ensures |b| <= |r| && r[|r| - |b|..] == b
    ensures |b| > 0 && b[0] == '/' ==> r == b
    ensures (|b| == 0 || b[0] != '/') ==>
              |a| + |b| <= |r| <= |a| + |b| + 1 && r[..|a|] == a &&
              (|r| == |a| + |b| + 1 ==> r[|a|] == '/')
    ensures (|b| == 0 || b[0] != '/') ==>
              (|r| == |a| + |b| + 1 <==> a != "" && a[|a| - 1] != '/')
  {
    if |b| > 0 && b[0] == '/' then b
    else if a == "" || a[|a| - 1] == '/' then a + b
    else a + "/" + b
  }
}
