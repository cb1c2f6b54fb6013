/** Name checks and path composition of the host-filesystem node: the parts of it that
    only look at strings. */
module Paths {

  predicate IsAbsolute(p: string)
  {
    |p| > 0 && p[0] == '/'
  }

  /** The two names that never denote a new entry: the directory itself and its parent. */
  predicate IsDotName(name: string)
  {
    name == "." || name == ".."
  }

  /** A name that may be created, removed or renamed: not empty and not a dot name. */
  predicate Ordinary(name: string)
  {
    name != "" && !IsDotName(name)
  }

  /** `dir + "/" + name`, the absolute form of `name` seen from the directory `dir`. */
  function Join(dir: string, name: string): string
  {
    dir + "/" + name
  }

  /** The position of the last `/` in `p`, or -1 when there is none. */
  function LastSlash(p: string): (k: int)
    ensures -1 <= k < |p|
    ensures k >= 0 ==> p[k] == '/'
    ensures forall i :: k < i < |p| ==> p[i] != '/'
  {
    if p == [] then -1
    else if p[|p| - 1] == '/' then |p| - 1
    else LastSlash(p[..|p| - 1])
  }

  /** The directory part of a path containing a `/`: everything before the last `/`. */
  function Dirname(p: string): string
    requires '/' in p
  {
    p[..LastSlash(p)]
  }

  /** The last component of a path containing a `/`: everything after the last `/`. */
  function Basename(p: string): string
    requires '/' in p
  {
    p[LastSlash(p) + 1..]
  }

  /** Joining a slash-free name onto a directory can be split back: the directory part is
      `dir` and the last component is `name`. */
  lemma {:induction false} SplitJoin(dir: string, name: string)
    requires '/' !in name
    ensures '/' in Join(dir, name)
    ensures Dirname(Join(dir, name)) == dir && Basename(Join(dir, name)) == name
  {
    var p := Join(dir, name);
    assert p[|dir|] == '/';
    var k := LastSlash(p);
    assert k == |dir|;
    assert p[..|dir|] == dir && p[|dir| + 1..] == name;
  }

  /** The resolved path of a node reached through `path` from a parent whose resolved path is
      `dir`: an absolute `path` is kept, anything else is joined onto the parent's path. */
  function Resolve(dir: string, path: string): (p: string)
    ensures IsAbsolute(path) ==> p == path
    ensures IsAbsolute(p) <==> IsAbsolute(path) || IsAbsolute(dir) || dir == ""
    ensures !IsAbsolute(path) ==>
              |p| == |dir| + 1 + |path| && p[..|dir| + 1] == dir + "/" && p[|dir| + 1..] == path
  {
    if IsAbsolute(path) then path else Join(dir, path)
  }

  /** The error `setup(name, e)` raises for a name that is not ordinary: "no such entry" for
      the empty name, the caller's code for a dot name. */
  function NameError(name: string, dotErr: int, enoent: int): (code: int)
    requires !Ordinary(name)
  {
    if name == "" then enoent else dotErr
  }

  /** The name `access` is asked about: the empty name stands for the directory itself. */
  function AccessName(name: string): (n: string)
    ensures n != ""
    ensures name == "" ==> n == "."
    ensures name != "" ==> n == name
  {
    if name == "" then "." else name
  }

  /** The resolved path reached from a node whose path is `dir` by traversing `names` in turn.
      Only ordinary names create a child node; `.`, `..` and the empty name do not, so the
      function is meant for sequences of ordinary names. A `..` inside a longer name is not
      normalised. */
  function DescendPath(dir: string, names: seq<string>): string
    decreases names
  {
    if names == [] then dir else DescendPath(Resolve(dir, names[0]), names[1..])
  }

  /** Traversing ordinary relative names yields a path that textually extends the start's
      path by a separator. */
  lemma {:induction false} DescendExtends(dir: string, names: seq<string>)
    requires names != []
    requires forall i :: 0 <= i < |names| ==> Ordinary(names[i]) && !IsAbsolute(names[i])
    ensures |DescendPath(dir, names)| > |dir|
    ensures DescendPath(dir, names)[..|dir| + 1] == dir + "/"
    decreases names
  {
    var next := Resolve(dir, names[0]);
    assert next[..|dir| + 1] == dir + "/";
    if |names| > 1 {
      DescendExtends(next, names[1..]);
      var p := DescendPath(next, names[1..]);
      assert p[..|dir| + 1] == p[..|next| + 1][..|dir| + 1];
    }
  }
}
