/**
 * The two path operations the locator and the option builder use:
 * `os.path.join(dir, name)` and `str(Path(p).parent)`, over plain strings.
 * On Windows both '\' and '/' separate components and '\' is the one
 * inserted; elsewhere only '/'. Drive letters and UNC shares are not
 * distinguished from other components.
 */
module Paths {

  predicate IsSep(windows: bool, c: char) {
    c == '/' || (windows && c == '\\')
  }

  /** The separator `os.path.join` inserts (`os.sep`). */
  function Sep(windows: bool): (c: char)
    ensures IsSep(windows, c)
  {
    if windows then '\\' else '/'
  }

  predicate NoSep(windows: bool, s: string) {
    forall k :: 0 <= k < |s| ==> !IsSep(windows, s[k])
  }

  /**
   * `os.path.join(dir, name)`: an absolute `name` replaces `dir`; otherwise
   * `name` is appended, with one separator between unless `dir` is empty or
   * already ends in one.
   */
  function Join(windows: bool, dir: string, name: string): (p: string)
    ensures |name| <= |p| && p[|p| - |name|..] == name
    ensures (name == [] || !IsSep(windows, name[0])) ==> |dir| <= |p| && p[..|dir|] == dir
  {
    if name != [] && IsSep(windows, name[0]) then name
    else if dir == [] || IsSep(windows, dir[|dir| - 1]) then dir + name
    else dir + [Sep(windows)] + name
  }

  /** Index of the last separator in `p`, or -1 when there is none. */
  function LastSep(windows: bool, p: string): (i: int)
    ensures -1 <= i < |p|
    ensures 0 <= i ==> IsSep(windows, p[i])
    ensures forall k :: i < k < |p| ==> !IsSep(windows, p[k])
  {
    if p == [] then -1
    else if IsSep(windows, p[|p| - 1]) then |p| - 1
    else LastSep(windows, p[..|p| - 1])
  }

  /** `s` without its trailing separators. */
  function TrimSeps(windows: bool, s: string): (r: string)
    ensures |r| <= |s| && r == s[..|r|]
    ensures r == [] || !IsSep(windows, r[|r| - 1])
    ensures forall k :: |r| <= k < |s| ==> IsSep(windows, s[k])
  {
    if s != [] && IsSep(windows, s[|s| - 1]) then TrimSeps(windows, s[..|s| - 1]) else s
  }

  /**
   * `str(Path(p).parent)`: everything before the last component, without
   * trailing separators; "." when `p` has a single component and the root
   * separator when the last component sits directly under it.
   */
  function Parent(windows: bool, p: string): (r: string)
    ensures r != []
    ensures 0 <= LastSep(windows, p) ==> |r| <= |p| && r == p[..|r|]
  {
    var i := LastSep(windows, p);
    if i < 0 then "."
    else
      var head := TrimSeps(windows, p[..i]);
      if head == [] then p[..1] else head
  }

  /**
   * Parent undoes Join: the parent of `dir` joined with a one-component name
   * is `dir` again, when `dir` is not empty and does not end in a separator.
   */
  lemma ParentOfJoin(windows: bool, dir: string, name: string)
    requires dir != [] && !IsSep(windows, dir[|dir| - 1])
    requires name != [] && NoSep(windows, name)
    ensures Parent(windows, Join(windows, dir, name)) == dir
  {
    var p := Join(windows, dir, name);
    assert p == dir + [Sep(windows)] + name;
    var i := LastSep(windows, p);
    if i < |dir| {
      assert IsSep(windows, p[|dir|]);
      assert false;
    } else if |dir| < i {
      assert false;
    }
    assert p[..i] == dir;
  }
}
