/**
 * Node's POSIX `path.basename` and `path.dirname`, which the run identity is
 * derived with. Both ignore trailing slashes; `dirname` of a name without a
 * directory is `.`, and of a name directly under the root is `/`.
 */
module Paths {
  import opened Results

  predicate HasSlash(s: string) {
    exists i :: 0 <= i < |s| && s[i] == '/'
  }

  function TrimTrailingSlashes(p: string): (r: string)
    ensures r <= p
    ensures r == [] || r[|r| - 1] != '/'
  {
    if p != [] && p[|p| - 1] == '/' then TrimTrailingSlashes(p[..|p| - 1]) else p
  }

  /** The position of the last `/` in `s`, if any. */
  function LastSlash(s: string): (r: Option<nat>)
    ensures r.Some? ==> r.value < |s| && s[r.value] == '/' && !HasSlash(s[r.value + 1..])
    ensures r.None? ==> !HasSlash(s)
  {
    if s == [] then None
    else if s[|s| - 1] == '/' then Some(|s| - 1)
    else
      var init, last := s[..|s| - 1], s[|s| - 1];
      match LastSlash(init)
      case None =>
        NoSlashSnoc(init, last);
        assert s == init + [last];
        None
      case Some(i) =>
        NoSlashSnoc(init[i + 1..], last);
        assert s[i + 1..] == init[i + 1..] + [last];
        Some(i)
  }

  lemma NoSlashSnoc(t: string, c: char)
    requires !HasSlash(t) && c != '/'
    ensures !HasSlash(t + [c])
  {
    var u := t + [c];
    forall i | 0 <= i < |u| ensures u[i] != '/' {
      if i < |t| {
        assert u[i] == t[i];
      }
    }
  }

  function Basename(p: string): string {
    var t := TrimTrailingSlashes(p);
    match LastSlash(t)
    case None => t
    case Some(i) => t[i + 1..]
  }

  function Dirname(p: string): string {
    if p == [] then "."
    else
      var t := TrimTrailingSlashes(p);
      match LastSlash(t)
      case Some(j) =>
        if j == 0 then (if p[0] == '/' then "/" else ".")
        else if p[0] == '/' && j == 1 then "//"
        else t[..j]
      case None => if p[0] == '/' then "/" else "."
  }

  /**
   * Splitting a joined path gives back its parts: for a directory that does not
   * end in `/` and a file name without `/`, `dirname(dir + "/" + file) == dir`
   * and `basename(dir + "/" + file) == file`.
   */
  lemma SplitJoined(dir: string, file: string)
    requires dir != [] && dir[|dir| - 1] != '/'
    requires file != [] && !HasSlash(file)
    ensures Dirname(dir + "/" + file) == dir
    ensures Basename(dir + "/" + file) == file
  {
    var p := dir + "/" + file;
    assert p[|p| - 1] == file[|file| - 1];
    assert TrimTrailingSlashes(p) == p;
    LastSlashOfJoined(dir, file);
    assert p[..|dir|] == dir;
    assert p[|dir| + 1..] == file;
  }

  lemma {:induction false} LastSlashOfJoined(dir: string, file: string)
    requires !HasSlash(file)
    ensures LastSlash(dir + "/" + file) == Some(|dir|)
    decreases |file|
  {
    var p := dir + "/" + file;
    if file == [] {
      assert p[|p| - 1] == '/';
    } else {
      var init := file[..|file| - 1];
      assert !HasSlash(init) by {
        forall i | 0 <= i < |init| ensures init[i] != '/' { assert init[i] == file[i]; }
      }
      assert p[|p| - 1] == file[|file| - 1];
      assert p[..|p| - 1] == dir + "/" + init;
      LastSlashOfJoined(dir, init);
    }
  }
}
