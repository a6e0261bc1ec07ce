/** The extension of a path, and the mime type that goes with it. */
module MimeTypes {

  /** The index just beyond the last '.', or 0. */
  function BeyondLastDot(s: string): (n: nat)
    ensures n <= |s|
    ensures n == 0 ==> '.' !in s
    ensures n > 0 ==> s[n - 1] == '.' && '.' !in s[n..]
  {
    if s == "" then 0
    else if s[|s| - 1] == '.' then |s|
    else
      var n := BeyondLastDot(s[..|s| - 1]);
      assert s == s[..|s| - 1] + [s[|s| - 1]];
      assert n > 0 ==> s[n..] == s[..|s| - 1][n..] + [s[|s| - 1]];
      n
  }

  /** The suffix from the last '.', or nothing. */
  function GetExtension(path: string): string {
    var n := BeyondLastDot(path);
    if n == 0 then "" else path[n - 1..]
  }

  function ToLower(c: char): char {
    if 'A' <= c <= 'Z' then c - 'A' + 'a' else c
  }

  function Lowered(s: string): string {
    seq(|s|, i requires 0 <= i < |s| => ToLower(s[i]))
  }

  predicate SameIgnoringCase(a: string, b: string) {
    Lowered(a) == Lowered(b)
  }

  /** The same letter in either case: 'A' to 'Z' lie 32 before 'a' to 'z'. */
  predicate CaseOf(c: char, d: char) {
    c == d || ('A' <= c <= 'Z' && d as int == c as int + 32) || ('A' <= d <= 'Z' && c as int == d as int + 32)
  }

  ghost predicate SameButCase(a: string, b: string) {
    |a| == |b| && forall i :: 0 <= i < |a| ==> CaseOf(a[i], b[i])
  }

  ghost predicate NoUpper(s: string) {
    forall i :: 0 <= i < |s| ==> !('A' <= s[i] <= 'Z')
  }

  /** The comparison of the library is the one letter by letter. */
  lemma SameIsSameButCase(a: string, b: string)
    ensures SameIgnoringCase(a, b) <==> SameButCase(a, b)
  {
    if SameIgnoringCase(a, b) {
      assert |Lowered(a)| == |Lowered(b)|;
      assert forall i :: 0 <= i < |a| ==> ToLower(a[i]) == Lowered(a)[i] == Lowered(b)[i] == ToLower(b[i]);
    }
  }

  const TABLE: seq<(string, string)> := [
    (".htm", "text/html"), (".html", "text/html"), (".php", "text/html"), (".css", "text/css"),
    (".txt", "text/plain"), (".js", "application/javascript"), (".json", "application/json"),
    (".xml", "application/xml"), (".swf", "application/x-shockwave-flash"), (".flv", "video/x-flv"),
    (".png", "image/png"), (".jpe", "image/jpeg"), (".jpeg", "image/jpeg"), (".jpg", "image/jpeg"),
    (".gif", "image/gif"), (".bmp", "image/bmp"), (".ico", "image/vnd.microsoft.icon"),
    (".tiff", "image/tiff"), (".tif", "image/tiff"), (".svg", "image/svg+xml"), (".svgz", "image/svg+xml")]

  function Lookup(ext: string, table: seq<(string, string)>): string {
    if table == [] then "application/text"
    else if SameIgnoringCase(ext, table[0].0) then table[0].1
    else Lookup(ext, table[1..])
  }

  function MimeType(path: string): string {
    Lookup(GetExtension(path), TABLE)
  }

  /** A '.' with none after it is the last. */
  lemma LastDotUnique(s: string, n: nat)
    requires 0 < n <= |s| && s[n - 1] == '.' && '.' !in s[n..]
    ensures BeyondLastDot(s) == n
  {
  }

  /** Taking the extension of an extension changes nothing, so the server's doubled call
      finds the mime type of the path itself. */
  lemma ExtensionIdempotent(path: string)
    ensures GetExtension(GetExtension(path)) == GetExtension(path)
    ensures MimeType(GetExtension(path)) == MimeType(path)
  {
  }

  /** The extension is the part of the path from its last '.', and empty without one. */
  lemma ExtensionIs(path: string)
    ensures '.' !in path ==> GetExtension(path) == ""
    ensures '.' in path ==>
              exists stem, ext :: path == stem + "." + ext && '.' !in ext && GetExtension(path) == "." + ext
  {
    var n := BeyondLastDot(path);
    if n == 0 {
    } else {
      assert path == path[..n - 1] + "." + path[n..];
      assert GetExtension(path) == "." + path[n..];
    }
  }

  /** The type that goes with a lower-case extension, type by type. */
  function Expected(ext: string): string {
    if ext in {".htm", ".html", ".php"} then "text/html"
    else if ext in {".jpe", ".jpeg", ".jpg"} then "image/jpeg"
    else if ext in {".tiff", ".tif"} then "image/tiff"
    else if ext in {".svg", ".svgz"} then "image/svg+xml"
    else if ext == ".css" then "text/css"
    else if ext == ".txt" then "text/plain"
    else if ext == ".js" then "application/javascript"
    else if ext == ".json" then "application/json"
    else if ext == ".xml" then "application/xml"
    else if ext == ".swf" then "application/x-shockwave-flash"
    else if ext == ".flv" then "video/x-flv"
    else if ext == ".png" then "image/png"
    else if ext == ".gif" then "image/gif"
    else if ext == ".bmp" then "image/bmp"
    else if ext == ".ico" then "image/vnd.microsoft.icon"
    else "application/text"
  }

  /** The table is searched for the first entry that matches. */
  lemma {:induction false} LookupFinds(ext: string, table: seq<(string, string)>) returns (k: nat)
    ensures k <= |table|
    ensures if k < |table| then SameIgnoringCase(ext, table[k].0) && Lookup(ext, table) == table[k].1
            else Lookup(ext, table) == "application/text"
                 && forall j :: 0 <= j < k ==> !SameIgnoringCase(ext, table[j].0)
    decreases |table|
  {
    if table == [] || SameIgnoringCase(ext, table[0].0) {
      return 0;
    }
    k := LookupFinds(ext, table[1..]);
    assert forall j :: 0 < j < |table| ==> table[j] == table[1..][j - 1];
    k := k + 1;
  }

  lemma EntryIsLower(k: nat)
    requires k < |TABLE|
    ensures Lowered(TABLE[k].0) == TABLE[k].0
  {
    assert forall i :: 0 <= i < |TABLE[k].0| ==> ToLower(TABLE[k].0[i]) == TABLE[k].0[i];
  }

  lemma EarlyEntry(k: nat)
    requires k < 11
    ensures Expected(TABLE[k].0) == TABLE[k].1
  {
  }

  lemma LateEntry(k: nat)
    requires 11 <= k < |TABLE|
    ensures Expected(TABLE[k].0) == TABLE[k].1
  {
  }

  lemma EntryIsExpected(k: nat)
    requires k < |TABLE|
    ensures Expected(TABLE[k].0) == TABLE[k].1
  {
    hide Expected;
    if k < 11 {
      EarlyEntry(k);
    } else {
      LateEntry(k);
    }
  }

  lemma ExpectedIsListed(ext: string)
    requires Expected(ext) != "application/text"
    ensures exists k :: 0 <= k < |TABLE| && TABLE[k].0 == ext
  {
    assert TABLE[0].0 == ".htm" && TABLE[1].0 == ".html" && TABLE[2].0 == ".php";
    assert TABLE[3].0 == ".css" && TABLE[4].0 == ".txt" && TABLE[5].0 == ".js";
    assert TABLE[6].0 == ".json" && TABLE[7].0 == ".xml" && TABLE[8].0 == ".swf";
    assert TABLE[9].0 == ".flv" && TABLE[10].0 == ".png" && TABLE[11].0 == ".jpe";
    assert TABLE[12].0 == ".jpeg" && TABLE[13].0 == ".jpg" && TABLE[14].0 == ".gif";
    assert TABLE[15].0 == ".bmp" && TABLE[16].0 == ".ico" && TABLE[17].0 == ".tiff";
    assert TABLE[18].0 == ".tif" && TABLE[19].0 == ".svg" && TABLE[20].0 == ".svgz";
  }

  /** The type of a path is the one that goes with its extension in lower case, whatever the path. */
  lemma MimeTypeIs(path: string)
    ensures MimeType(path) == Expected(Lowered(GetExtension(path)))
    ensures SameButCase(Lowered(GetExtension(path)), GetExtension(path)) && NoUpper(Lowered(GetExtension(path)))
  {
    var ext := GetExtension(path);
    var k := LookupFinds(ext, TABLE);
    if k < |TABLE| {
      EntryIsLower(k);
      EntryIsExpected(k);
    } else if Expected(Lowered(ext)) != "application/text" {
      ExpectedIsListed(Lowered(ext));
      var j :| 0 <= j < |TABLE| && TABLE[j].0 == Lowered(ext);
      EntryIsLower(j);
    }
  }

  lemma {:induction false} LookupIgnoresCase(ext: string, ext': string, table: seq<(string, string)>)
    requires SameIgnoringCase(ext, ext')
    ensures Lookup(ext, table) == Lookup(ext', table)
    decreases |table|
  {
    if table != [] {
      LookupIgnoresCase(ext, ext', table[1..]);
    }
  }

  lemma NoDot(s: string)
    requires '.' !in s
    ensures BeyondLastDot(s) == 0
  {
    assert forall i :: 0 <= i < |s| ==> s[i] in s;
  }

  lemma SameChar(s: string, s': string, i: nat)
    requires SameIgnoringCase(s, s') && i < |s|
    ensures |s'| == |s| && ToLower(s[i]) == ToLower(s'[i]) && (s[i] == '.' <==> s'[i] == '.')
  {
    assert |s| == |Lowered(s)| == |s'|;
    assert ToLower(s[i]) == Lowered(s)[i] == Lowered(s')[i] == ToLower(s'[i]);
  }

  lemma SameSuffix(s: string, s': string, n: nat)
    requires SameIgnoringCase(s, s') && n <= |s|
    ensures |s'| == |s| && SameIgnoringCase(s[n..], s'[n..])
  {
    assert |s| == |Lowered(s)| == |s'|;
    assert Lowered(s[n..]) == Lowered(s)[n..] && Lowered(s'[n..]) == Lowered(s')[n..];
  }

  lemma NoDotEither(s: string, s': string)
    requires SameIgnoringCase(s, s') && '.' !in s
    ensures '.' !in s'
  {
    assert |s| == |Lowered(s)| == |s'|;
    forall i | 0 <= i < |s'|
      ensures s'[i] != '.'
    {
      SameChar(s, s', i);
      assert s[i] in s;
    }
  }

  lemma SameLastDot(path: string, path': string)
    requires SameIgnoringCase(path, path')
    ensures BeyondLastDot(path) == BeyondLastDot(path')
  {
    var n := BeyondLastDot(path);
    if n == 0 {
      NoDotEither(path, path');
      NoDot(path');
    } else {
      SameChar(path, path', n - 1);
      SameSuffix(path, path', n);
      NoDotEither(path[n..], path'[n..]);
      LastDotUnique(path', n);
    }
  }

  /** Changing the case of letters anywhere in a path does not change its mime type. */
  lemma MimeTypeIgnoresCase(path: string, path': string)
    requires SameButCase(path, path')
    ensures MimeType(path) == MimeType(path')
  {
    SameIsSameButCase(path, path');
    SameLastDot(path, path');
    if BeyondLastDot(path) > 0 {
      SameSuffix(path, path', BeyondLastDot(path) - 1);
      LookupIgnoresCase(GetExtension(path), GetExtension(path'), TABLE);
    }
  }
}
