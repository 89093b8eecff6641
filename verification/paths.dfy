/** The two pieces of `pathlib.PurePosixPath` that image validation reads:
    the final component (`.name`) and its extension (`.suffix`). */
module Paths {
  import opened Text

  /** `PurePosixPath(path).name`: everything after the last '/'. */
  function Name(path: string): (r: string)
    ensures '/' !in r && |r| <= |path| && r == path[|path| - |r|..]
  {
    var i := RFind(path, '/');
    path[i + 1..]
  }

  /** `PurePosixPath.suffix` of a final component: from its last '.' to the
      end, unless that dot is the first or the last character (a hidden file
      such as ".bashrc", or a name ending in '.'), or there is no dot. */
  function Suffix(name: string): (r: string)
    ensures r == "" || (|r| >= 2 && r[0] == '.' && |r| < |name| && r == name[|name| - |r|..])
  {
    var i := RFind(name, '.');
    if 0 < i < |name| - 1 then name[i..] else ""
  }

  /** The extension of a whole path. */
  function PathSuffix(path: string): (r: string)
    ensures r == "" || (|r| >= 2 && r[0] == '.')
  {
    Suffix(Name(path))
  }

  /** The name is the part of the path after its last '/'. */
  lemma NameShape(path: string)
    ensures var r := Name(path);
      && '/' !in r
      && |r| <= |path| && r == path[|path| - |r|..]
      && (|r| < |path| ==> path[|path| - |r| - 1] == '/')
  {
  }

  /** A non-empty suffix is a dot followed by at least one character other
      than a dot, ends the name, and is shorter than it; it is empty exactly
      when the name has no dot, ends in one, or has its only dot in front. */
  lemma SuffixShape(name: string)
    ensures var r := Suffix(name);
      && (r == "" || (|r| >= 2 && r[0] == '.' && '.' !in r[1..]
                      && |r| < |name| && r == name[|name| - |r|..]))
      && (r == "" <==> ('.' !in name || name[|name| - 1] == '.'
                        || (name[0] == '.' && '.' !in name[1..])))
  {
  }

  /** The extension of a path starts with a dot and holds no other dot and
      no '/'. */
  lemma PathSuffixShape(path: string)
    ensures var r := PathSuffix(path);
      r == "" || (r[0] == '.' && '.' !in r[1..] && '/' !in r)
  {
    NameShape(path);
    SuffixShape(Name(path));
  }
}
