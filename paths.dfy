/** The POSIX flavour of Node's `path.basename` and `path.extname`. */
module Paths {
  import opened Seqs
  import opened Strings

  /** The position of the last occurrence of `c` in `s`. */
  function LastIndexOf(s: string, c: char): (r: Option<nat>)
    ensures r.Some? ==> r.value < |s| && s[r.value] == c && forall j :: r.value < j < |s| ==> s[j] != c
    ensures r.None? ==> forall j :: 0 <= j < |s| ==> s[j] != c
    decreases |s|
  {
    if |s| == 0 then None
    else if s[|s| - 1] == c then Some(|s| - 1)
    else LastIndexOf(s[..|s| - 1], c)
  }

  /** The last occurrence is the one with no occurrence after it. */
  lemma LastIndexOfAt(s: string, c: char, k: nat)
    requires k < |s| && s[k] == c && forall j :: k < j < |s| ==> s[j] != c
    ensures LastIndexOf(s, c) == Some(k)
  {
  }

  /** `p` with its trailing separators removed. */
  function StripTrailingSlashes(p: string): (r: string)
    ensures r <= p
    ensures r == [] || r[|r| - 1] != '/'
    ensures forall i :: |r| <= i < |p| ==> p[i] == '/'
    decreases |p|
  {
    if |p| > 0 && p[|p| - 1] == '/' then StripTrailingSlashes(p[..|p| - 1]) else p
  }

  /** path.basename(p): the last non-empty segment, trailing separators ignored. */
  function Basename(p: string): (r: string)
    ensures forall i :: 0 <= i < |r| ==> r[i] != '/'
    ensures EndsWith(StripTrailingSlashes(p), r)
  {
    var q := StripTrailingSlashes(p);
    match LastIndexOf(q, '/')
    case None => q
    case Some(i) => q[i + 1..]
  }

  /** The basename is the whole stripped path, or the part after its last separator. */
  lemma BasenameFollowsSeparator(p: string)
    ensures var q, r := StripTrailingSlashes(p), Basename(p);
            r == q || (|r| < |q| && q[|q| - |r| - 1] == '/')
  {
    var q := StripTrailingSlashes(p);
    match LastIndexOf(q, '/')
    case None =>
    case Some(i) =>
      assert Basename(p) == q[i + 1..];
      assert |q| - |Basename(p)| - 1 == i;
  }

  /**
   * path.extname(path.basename(p)): from the last '.' of the basename to its end,
   * or empty when the basename has no '.', only a leading '.', or is "..".
   */
  function BasenameExt(p: string): (r: string)
    ensures r == [] || (r[0] == '.' && forall i :: 1 <= i < |r| ==> r[i] != '.' && r[i] != '/')
    ensures r != [] ==> EndsWith(Basename(p), r) && |r| < |Basename(p)|
    ensures var b := Basename(p); r == [] <==> b == ".." || forall i :: 0 < i < |b| ==> b[i] != '.'
  {
    var b := Basename(p);
    match LastIndexOf(b, '.')
    case None => ""
    case Some(i) =>
      if i == 0 || b == ".." then ""
      else
        var ext := b[i..];
        assert ext[0] == '.' && forall j :: 1 <= j < |ext| ==> ext[j] == b[i + j];
        ext
  }
}
