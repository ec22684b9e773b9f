/** Derivation of a process name from its executable path: the text after
    the last '/', or the whole path when it has no '/'. */
module Names {

  import opened Wrappers

  /** The search for the last occurrence of a character: its index, or None
      for "not found". */
  function LastIndexOf(s: string, c: char): (r: Option<nat>)
    ensures r.Some? ==> r.value < |s| && s[r.value] == c
    ensures r.Some? ==> forall j :: r.value < j < |s| ==> s[j] != c
    ensures r.None? ==> c !in s
  {
    if s == [] then None
    else if s[|s| - 1] == c then Some(|s| - 1)
    else
      assert forall j :: 0 <= j < |s| - 1 ==> s[..|s| - 1][j] == s[j];
      LastIndexOf(s[..|s| - 1], c)
  }

  /** `name` is the last component of `path`: a suffix of it holding no '/',
      and either the whole path or preceded by a '/'. */
  ghost predicate IsLastComponent(name: string, path: string)
  {
    '/' !in name &&
    |name| <= |path| && path[|path| - |name|..] == name &&
    (|name| == |path| || path[|path| - |name| - 1] == '/')
  }

  /** The name the collector records for an executable path. */
  function NameOf(path: string): (name: string)
    ensures IsLastComponent(name, path)
    ensures '/' !in path ==> name == path
    ensures '/' in path ==> |name| < |path|
  {
    match LastIndexOf(path, '/')
    case Some(slash) => path[slash + 1..]
    case None => path
  }

  /** The last component is unique, so NameOf is the only function meeting
      its contract. */
  lemma {:induction false} LastComponentUnique(path: string, n1: string, n2: string)
    requires IsLastComponent(n1, path) && IsLastComponent(n2, path)
    ensures n1 == n2
  {
    // a longer one would hold the '/' in front of the shorter one
    assert |n1| == |n2|;
  }

  /** Joining a directory and a slash-free file name gives back that name. */
  lemma NameOfJoin(dir: string, file: string)
    requires '/' !in file
    ensures NameOf(dir + "/" + file) == file
  {
    var path := dir + "/" + file;
    assert path[|path| - |file|..] == file;
    assert path[|path| - |file| - 1] == '/';
    LastComponentUnique(path, file, NameOf(path));
  }

  /** "/usr/bin/gcc-12" is named "gcc-12". */
  lemma CompilerName(path: string)
    requires path == "/usr/bin/gcc-12"
    ensures NameOf(path) == "gcc-12"
  {
    assert path == "/usr/bin" + "/" + "gcc-12";
    NameOfJoin("/usr/bin", "gcc-12");
  }
}
