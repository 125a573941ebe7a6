/**
 `Path.GetFileName`: the part of a path after its last directory separator.
 The model takes `/` and `\` as the separators (the directory and the
 alternate directory separator of .NET on Windows).
 */
module Paths {

  predicate IsSeparator(c: char) {
    c == '/' || c == '\\'
  }

  predicate NoSeparator(s: string) {
    forall i :: 0 <= i < |s| ==> !IsSeparator(s[i])
  }

  /** The file name of `path`: its longest suffix free of separators. */
  function FileName(path: string): (r: string)
    ensures |r| <= |path|
  {
    if |path| == 0 then ""
    else if IsSeparator(path[|path| - 1]) then ""
    else FileName(path[..|path| - 1]) + [path[|path| - 1]]
  }

  /** The three facts that pin the file name down: it is a suffix of the
      path, it holds no separator, and it cannot be extended to the left. */
  lemma {:induction false} FileNameIsLastSegment(path: string)
    ensures var r := FileName(path);
            && NoSeparator(r)
            && path[|path| - |r|..] == r
            && (|r| < |path| ==> IsSeparator(path[|path| - |r| - 1]))
    decreases |path|
  {
    if |path| > 0 && !IsSeparator(path[|path| - 1]) {
      var init := path[..|path| - 1];
      FileNameIsLastSegment(init);
      var r := FileName(path);
      assert r == FileName(init) + [path[|path| - 1]];
      assert path[|path| - |r|..] == init[|init| - |FileName(init)|..] + [path[|path| - 1]];
    }
  }

  /** Splitting a path at a directory boundary: whatever directory part
      comes first, the file name is the separator-free part after it. */
  lemma {:induction false} FileNameAfterDirectory(directory: string, name: string)
    requires |directory| == 0 || IsSeparator(directory[|directory| - 1])
    requires NoSeparator(name)
    ensures FileName(directory + name) == name
    decreases |name|
  {
    var path := directory + name;
    if |name| == 0 {
      assert path == directory;
    } else {
      var init := name[..|name| - 1];
      var last := name[|name| - 1];
      assert NoSeparator(init);
      FileNameAfterDirectory(directory, init);
      assert path[|path| - 1] == last && !IsSeparator(last);
      assert path[..|path| - 1] == directory + init;
      assert FileName(path) == init + [last];
      assert name == init + [last];
    }
  }

  /** A path is its own file name exactly when it holds no separator. */
  lemma FileNameOfPlainName(path: string)
    ensures FileName(path) == path <==> NoSeparator(path)
  {
    FileNameIsLastSegment(path);
    if NoSeparator(path) {
      FileNameAfterDirectory("", path);
      assert "" + path == path;
    }
  }

  /** Taking the file name twice changes nothing. */
  lemma FileNameIdempotent(path: string)
    ensures FileName(FileName(path)) == FileName(path)
  {
    FileNameIsLastSegment(path);
    FileNameOfPlainName(FileName(path));
  }
}
