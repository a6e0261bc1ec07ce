/** File paths, and where they lead once dot segments are resolved. */
module Paths {

  function WithoutTrailingSlash(s: string): string {
    if s != "" && s[|s| - 1] == '/' then s[..|s| - 1] else s
  }

  /** The path that `PathCat` leaves in its result. */
  function Joined(base: string, path: string): string {
    WithoutTrailingSlash(base) + path
  }

  /** Append a relative path to a local one, editing the result in place (POSIX separator). One
      slash at the end of the base is dropped, and nothing else. */
  method PathCat(base: string, path: string) returns (result: string)
    ensures result == Joined(base, path)
    ensures base == "" ==> result == path
    ensures base != "" && base[|base| - 1] == '/' ==> result == base[..|base| - 1] + path
    ensures base != "" && base[|base| - 1] != '/' ==> result == base + path
  {
    if base == "" {
      result := path;
      return;
    }
    result := base;
    if result[|result| - 1] == '/' {
      result := result[..|result| - 1];
    }
    result := result + path;
  }

  /** `".."` occurs somewhere in `s`. */
  predicate HasDotDot(s: string) {
    exists i :: 0 <= i < |s| - 1 && s[i] == '.' && s[i + 1] == '.'
  }

  /** The check a request target must pass before it names a file. */
  predicate Acceptable(target: string) {
    target != "" && target[0] == '/' && !HasDotDot(target)
  }

  function FilePath(docRoot: string, target: string): string {
    Joined(docRoot, target) + (if target != "" && target[|target| - 1] == '/' then "index.html" else "")
  }

  // ---------- segments ----------

  /** The parts between slashes; always at least one. */
  function Segments(s: string): (parts: seq<string>)
    ensures |parts| > 0
  {
    if s == "" then [""]
    else
      var rest := Segments(s[1..]);
      if s[0] == '/' then [""] + rest else [[s[0]] + rest[0]] + rest[1..]
  }

  /** Dot segments resolved as in section 5.2.4 of RFC 3986: "." is dropped and ".." takes
      the segment before it away. */
  function Resolve(stack: seq<string>, parts: seq<string>): seq<string>
    decreases |parts|
  {
    if parts == [] then stack
    else if parts[0] == "." then Resolve(stack, parts[1..])
    else if parts[0] == ".." then Resolve(if stack == [] then [] else stack[..|stack| - 1], parts[1..])
    else Resolve(stack + [parts[0]], parts[1..])
  }

  lemma {:induction false} SegmentsOfJoin(a: string, b: string)
    ensures Segments(a + "/" + b) == Segments(a) + Segments(b)
  {
    if a == "" {
      assert (a + "/" + b)[1..] == b;
    } else {
      assert (a + "/" + b)[1..] == a[1..] + "/" + b;
      SegmentsOfJoin(a[1..], b);
    }
  }

  /** A ".." segment would be seen by the check. */
  lemma {:induction false} DotDotSegmentIsSeen(s: string)
    ensures ".." in Segments(s) ==> HasDotDot(s)
    ensures Segments(s)[0] == "." ==> s != "" && s[0] == '.'
    ensures Segments(s)[0] == ".." ==> HasDotDot(s)
  {
    if s != "" {
      var rest := Segments(s[1..]);
      DotDotSegmentIsSeen(s[1..]);
      DotDotWithin(s);
      if s[0] != '/' {
        assert Segments(s)[0] == [s[0]] + rest[0];
        if Segments(s)[0] == ".." {
          assert Segments(s)[0][0] == '.' && Segments(s)[0][1..] == ".";
          assert rest[0] == ".";
          assert s[0] == '.' && s[0 + 1] == '.';
        }
        if Segments(s)[0] == "." {
          assert Segments(s)[0][0] == '.';
        }
        assert Segments(s)[1..] == rest[1..];
        if ".." in Segments(s)[1..] {
          assert ".." in rest;
        }
      }
    }
  }

  lemma {:induction false} ResolveOnlyGrows(stack: seq<string>, parts: seq<string>)
    requires ".." !in parts
    ensures stack <= Resolve(stack, parts)
    decreases |parts|
  {
    if parts != [] {
      ResolveOnlyGrows(if parts[0] == "." then stack else stack + [parts[0]], parts[1..]);
    }
  }

  lemma {:induction false} ResolveInTwo(stack: seq<string>, a: seq<string>, b: seq<string>)
    ensures Resolve(stack, a + b) == Resolve(Resolve(stack, a), b)
    decreases |a|
  {
    if a == [] {
      assert a + b == b;
    } else {
      assert (a + b)[1..] == a[1..] + b;
      ResolveInTwo(stack, a[1..], b);
      ResolveInTwo(if stack == [] then [] else stack[..|stack| - 1], a[1..], b);
      ResolveInTwo(stack + [a[0]], a[1..], b);
    }
  }

  /** What follows the leading slash of the target, with the index page where it names a directory. */
  function Below(target: string): string
    requires target != ""
  {
    target[1..] + (if target[|target| - 1] == '/' then "index.html" else "")
  }

  lemma DotDotWithin(s: string)
    requires s != ""
    ensures HasDotDot(s[1..]) ==> HasDotDot(s)
  {
    if HasDotDot(s[1..]) {
      var i :| 0 <= i < |s[1..]| - 1 && s[1..][i] == '.' && s[1..][i + 1] == '.';
      assert s[i + 1] == '.' && s[i + 1 + 1] == '.';
    }
  }

  lemma DotDotNotAcross(s: string, t: string)
    requires !HasDotDot(s) && !HasDotDot(t) && (s == "" || s[|s| - 1] == '/')
    ensures !HasDotDot(s + t)
  {
  }

  lemma IndexPageHasNoDotDot()
    ensures !HasDotDot("index.html")
  {
  }

  lemma BelowHasNoDotDot(target: string)
    requires Acceptable(target)
    ensures ".." !in Segments(Below(target))
  {
    var rest := target[1..];
    DotDotWithin(target);
    if target[|target| - 1] == '/' {
      IndexPageHasNoDotDot();
      DotDotNotAcross(rest, "index.html");
    }
    assert rest + "" == rest;
    DotDotSegmentIsSeen(Below(target));
  }

  /** `docRoot` names this directory, with or without a slash at its end. */
  ghost predicate Names(docRoot: string, root: string) {
    docRoot == root + "/" || (docRoot == root && (root == "" || root[|root| - 1] != '/'))
  }

  /** With dot segments resolved, the path leads to the document root or to something below it. */
  ghost predicate AtOrBelow(docRoot: string, path: string) {
    exists root :: Names(docRoot, root) && Resolve([], Segments(root)) <= Resolve([], Segments(path))
  }

  /** Every document root names exactly one directory. */
  lemma RootNamed(docRoot: string, root: string)
    ensures Names(docRoot, root) <==> root == WithoutTrailingSlash(docRoot)
  {
    if docRoot != "" && docRoot[|docRoot| - 1] == '/' {
      assert docRoot == docRoot[..|docRoot| - 1] + "/";
    }
  }

  /** The path built is the document root, less a slash at its end, followed by the target, and
      by an index page where the target names a directory. */
  lemma FilePathIs(docRoot: string, target: string, root: string)
    requires target != "" && Names(docRoot, root)
    ensures FilePath(docRoot, target) == root + target + (if target[|target| - 1] == '/' then "index.html" else "")
  {
    RootNamed(docRoot, root);
  }

  /** For every accepted target and every document root, the path built has the segments of
      the root followed by those of the target (an index page included), and resolving dot
      segments never climbs above what the root resolves to. */
  lemma PathStaysBelowRoot(docRoot: string, target: string)
    requires Acceptable(target)
    ensures AtOrBelow(docRoot, FilePath(docRoot, target))
    ensures forall root | Names(docRoot, root) ::
              && Segments(FilePath(docRoot, target)) == Segments(root) + Segments(Below(target))
              && Resolve([], Segments(root)) <= Resolve([], Segments(FilePath(docRoot, target)))
  {
    var root, below := WithoutTrailingSlash(docRoot), Below(target);
    RootNamed(docRoot, root);
    FilePathIs(docRoot, target, root);
    assert target == "/" + target[1..];
    assert FilePath(docRoot, target) == root + "/" + below;
    SegmentsOfJoin(root, below);
    BelowHasNoDotDot(target);
    ResolveInTwo([], Segments(root), Segments(below));
    ResolveOnlyGrows(Resolve([], Segments(root)), Segments(below));
    forall other | Names(docRoot, other)
      ensures other == root
    {
      RootNamed(docRoot, other);
    }
  }
}
