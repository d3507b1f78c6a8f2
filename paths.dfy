/** Path strings as the walker sees them: `/`-separated, with
    `Path::file_name` and the lower-casing used to spot documentation. */
module Paths {
  import opened Wrappers

  /** The path without trailing separators and trailing "." components
      ("a/b/" and "a/b/." are "a/b"), which `Path::components` skips. */
  function TrimTrailing(p: string): string
  {
    if p != [] && p[|p| - 1] == '/' then TrimTrailing(p[..|p| - 1])
    else if |p| >= 2 && p[|p| - 2] == '/' && p[|p| - 1] == '.' then TrimTrailing(p[..|p| - 2])
    else p
  }

  /** The text after the last separator. */
  function LastSegment(p: string): string
  {
    if p == [] || p[|p| - 1] == '/' then [] else LastSegment(p[..|p| - 1]) + [p[|p| - 1]]
  }

  /** `Path::file_name`: the final component of a path once trailing
      separators and "." components are dropped, or None when there is
      none (the root "/" or ""), or it is "." (a lone current directory)
      or "..". */
  function FileName(p: string): Option<string>
  {
    var seg := LastSegment(TrimTrailing(p));
    if seg == [] || seg == "." || seg == ".." then None else Some(seg)
  }

  /** The last segment holds no separator. */
  lemma {:induction false} LastSegmentNoSlash(p: string)
    ensures '/' !in LastSegment(p)
  {
    if p != [] && p[|p| - 1] != '/' {
      LastSegmentNoSlash(p[..|p| - 1]);
    }
  }

  /** A file name is a single non-empty component other than "." and "..". */
  lemma FileNameShape(p: string)
    ensures FileName(p).Some? ==>
              FileName(p).value != [] && '/' !in FileName(p).value &&
              FileName(p).value != "." && FileName(p).value != ".."
  {
    LastSegmentNoSlash(TrimTrailing(p));
  }

  lemma {:induction false} LastSegmentAfterSlash(prefix: string, name: string)
    requires '/' !in name
    ensures LastSegment(prefix + "/" + name) == name
  {
    var q := prefix + "/" + name;
    if name != [] {
      var init := name[..|name| - 1];
      assert q[..|q| - 1] == prefix + "/" + init;
      LastSegmentAfterSlash(prefix, init);
      assert name == init + [name[|name| - 1]];
    }
  }

  /** The entries a directory listing yields are `dir/name`; their file
      name is `name`. */
  lemma FileNameOfChild(dir: string, name: string)
    requires name != [] && '/' !in name && name != "." && name != ".."
    ensures FileName(dir + "/" + name) == Some(name)
  {
    var q := dir + "/" + name;
    assert q[|q| - 1] == name[|name| - 1];
    assert q[|q| - 2] == if |name| == 1 then '/' else name[|name| - 2];
    assert TrimTrailing(q) == q;
    LastSegmentAfterSlash(dir, name);
  }

  /** A trailing separator or "." component does not change the file
      name: "/w/app/" and "/w/app/." are named "app" like "/w/app". */
  lemma FileNameIgnoresTrailing(p: string)
    ensures FileName(p + "/") == FileName(p)
    ensures FileName(p + "/.") == FileName(p)
  {
    assert (p + "/")[..|p + "/"| - 1] == p;
    assert (p + "/.")[..|p + "/."| - 2] == p;
  }

  /** ASCII lower-casing of one character. */
  function LowerChar(c: char): char
  {
    if 'A' <= c <= 'Z' then (c as int + 32) as char else c
  }

  /** `str::to_lowercase`, restricted to the ASCII letters. */
  function Lower(s: string): (r: string)
    ensures |r| == |s|
    ensures forall i :: 0 <= i < |s| ==> r[i] == LowerChar(s[i])
  {
    seq(|s|, i requires 0 <= i < |s| => LowerChar(s[i]))
  }
}
