/**
 * The parts of Node's POSIX `path` module the tool uses, on paths written
 * as plain strings with '/' separators: `basename`, `dirname`, `join` and
 * `extname`.
 */
module Paths {
  import opened Text

  /** `path.basename(p)`: what follows the last '/'. */
  function Basename(p: string): (b: string)
    ensures forall j :: 0 <= j < |b| ==> b[j] != '/'
    ensures EndsWith(p, b)
    ensures (forall j :: 0 <= j < |p| ==> p[j] != '/') ==> b == p
  {
    match LastIndexOf(p, '/')
    case None => p
    case Some(i) => p[i + 1..]
  }

  /** `path.dirname(p)`: what precedes the last '/', "." when there is none, "/" at the root. */
  function Dirname(p: string): (d: string)
    ensures d != ""
  {
    match LastIndexOf(p, '/')
    case None => "."
    case Some(i) => if i == 0 then "/" else p[..i]
  }

  /** `path.join(dir, name)` for a directory produced by `Dirname`. */
  function JoinPath(dir: string, name: string): (p: string)
    ensures (forall j :: 0 <= j < |name| ==> name[j] != '/') ==> Basename(p) == name
    ensures EndsWith(p, name)
  {
    var p := if dir == "." then name else if EndsWith(dir, "/") then dir + name else dir + "/" + name;
    assert p[|p| - |name|..] == name;
    if forall j :: 0 <= j < |name| ==> name[j] != '/' then
      NameAfterLastSlash(p, name);
      p
    else p
  }

  lemma NameAfterLastSlash(p: string, name: string)
    requires EndsWith(p, name)
    requires forall j :: 0 <= j < |name| ==> name[j] != '/'
    requires |p| > |name| ==> p[|p| - |name| - 1] == '/'
    ensures Basename(p) == name
  {
  }

  /**
   * `path.extname(p)`: from the last '.' of the base name to its end; empty
   * when the base name has no '.', when its only leading character is the
   * last '.', and for "..".
   */
  function Extname(p: string): (e: string)
    ensures e == "" || (e[0] == '.' && |e| < |Basename(p)| && EndsWith(Basename(p), e))
    ensures forall j :: 0 < j < |e| ==> e[j] != '.' && e[j] != '/'
  {
    var b := Basename(p);
    match LastIndexOf(b, '.')
    case None => ""
    case Some(d) => if d == 0 || b == ".." then "" else b[d..]
  }

  /** `path.basename(p, path.extname(p))`: the base name without its extension. */
  function Stem(p: string): (s: string)
    ensures s + Extname(p) == Basename(p)
    ensures Basename(p) != "" ==> s != ""
  {
    var b := Basename(p);
    var e := Extname(p);
    assert b[..|b| - |e|] + e == b;
    b[..|b| - |e|]
  }

  /** The path has no directory part. */
  predicate NoSlash(p: string) {
    forall i :: 0 <= i < |p| ==> p[i] != '/'
  }

  /** A bare file name is its own base name, and splits into stem and extension. */
  lemma SplitExtension(p: string)
    requires NoSlash(p)
    ensures Basename(p) == p
    ensures Stem(p) + Extname(p) == p
    ensures p != "" ==> Stem(p) != ""
  {
  }
}
