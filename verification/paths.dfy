/** The two `pathlib.Path` attributes the file classifiers read. */
module Paths {

  /** Index of the last occurrence of `c` in `s`, or -1 (Python's `rfind`). */
  function LastIndexOf(s: string, c: char): (r: int)
    ensures -1 <= r < |s|
    ensures r >= 0 ==> s[r] == c
    ensures forall k :: r < k < |s| ==> s[k] != c
  {
    if s == [] then -1
    else if s[|s| - 1] == c then |s| - 1
    else LastIndexOf(s[..|s| - 1], c)
  }

  /** `Path(path).name`: the text after the last `/`. */
  function FileName(path: string): (r: string)
    ensures '/' !in r
  {
    var i := LastIndexOf(path, '/');
    path[i + 1..]
  }

  /**
   * `Path(path).suffix`: from the last dot of the name to its end, provided that
   * dot is neither the first nor the last character of the name; otherwise "".
   */
  function Suffix(path: string): (r: string)
    ensures r == [] || (r[0] == '.' && |r| >= 2 && '.' !in r[1..] && '/' !in r)
    ensures r != [] ==> |r| < |FileName(path)| && r == FileName(path)[|FileName(path)| - |r|..]
  {
    var name := FileName(path);
    var i := LastIndexOf(name, '.');
    if 0 < i < |name| - 1 then
      assert name[i..][1..] == name[i + 1..];
      name[i..]
    else []
  }

  /** Appending text without `c` keeps the last occurrence of `c` where it was. */
  lemma {:induction false} LastIndexOfAppend(a: string, t: string, c: char)
    requires c !in t
    ensures LastIndexOf(a + t, c) == LastIndexOf(a, c)
  {
    if t != [] {
      assert (a + t)[..|a + t| - 1] == a + t[..|t| - 1];
      LastIndexOfAppend(a, t[..|t| - 1], c);
    } else {
      assert a + t == a;
    }
  }

  /** The name of a file directly under `dir` is that file's own name. */
  lemma FileNameUnderDir(dir: string, name: string)
    requires dir == [] || dir[|dir| - 1] == '/'
    requires '/' !in name
    ensures FileName(dir + name) == name
  {
    LastIndexOfAppend(dir, name, '/');
    var i := LastIndexOf(dir, '/');
    assert dir == [] ==> i == -1;
    assert dir != [] ==> i == |dir| - 1;
    assert (dir + name)[i + 1..] == name;
  }

  /** In `stem + ext`, where `ext` is a dot and then dot-free text, the last dot starts `ext`. */
  lemma LastDotStartsExtension(stem: string, ext: string)
    requires |ext| >= 1 && ext[0] == '.' && '.' !in ext[1..]
    ensures LastIndexOf(stem + ext, '.') == |stem|
  {
    assert stem + ext == (stem + ['.']) + ext[1..];
    LastIndexOfAppend(stem + ['.'], ext[1..], '.');
  }

  /**
   * A file `stem + ext` in any directory has suffix `ext` when `ext` is a dot followed
   * by at least one character and no further dot, and the stem is not empty.
   */
  lemma SuffixOfNamedFile(dir: string, stem: string, ext: string)
    requires dir == [] || dir[|dir| - 1] == '/'
    requires |stem| >= 1 && '/' !in stem
    requires |ext| >= 2 && ext[0] == '.' && '.' !in ext[1..] && '/' !in ext
    ensures Suffix(dir + stem + ext) == ext
  {
    var name := stem + ext;
    assert dir + stem + ext == dir + name;
    FileNameUnderDir(dir, name);
    assert '/' !in name;
    assert FileName(dir + stem + ext) == name;
    LastDotStartsExtension(stem, ext);
    assert name[|stem|..] == ext;
  }

  /** A name that is only an extension, such as `.png`, has an empty suffix. */
  lemma HiddenFileHasNoSuffix(dir: string, ext: string)
    requires dir == [] || dir[|dir| - 1] == '/'
    requires |ext| >= 2 && ext[0] == '.' && '.' !in ext[1..] && '/' !in ext
    ensures Suffix(dir + ext) == []
  {
    FileNameUnderDir(dir, ext);
    LastDotStartsExtension([], ext);
    assert [] + ext == ext;
  }
}
