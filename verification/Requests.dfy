/** The answer to a request: which status, whether the connection is kept, and which file. */
module Requests {
  import opened Codes
  import MimeTypes
  import opened Paths

  datatype Content = Page | File(path: string)

  datatype Response = Response(status: nat, keepAlive: bool, contentType: string, content: Content)

  /** The parts of the server outside this repository: what a request says, which files can be
      opened, and how a response is serialized. */
  datatype Site = Site(
    docRoot: string,
    target: seq<byte> -> string,
    keepAlive: seq<byte> -> bool,
    opens: string -> bool,
    wire: Response -> seq<byte>)

  const HTML := "text/html; charset=iso-8859-1"

  function ErrorResponse(status: nat, keepAlive: bool): Response {
    Response(status, keepAlive, HTML, Page)
  }

  const UNAVAILABLE := ErrorResponse(503, false)

  /** The response of a server that is shutting down: a page that says so and closes the connection. */
  ghost predicate Unavailable(res: Response) {
    && res.status == 503 && !res.keepAlive
    && res.content == Page && res.contentType == "text/html; charset=iso-8859-1"
  }

  function Answer(site: Site, request: seq<byte>): Response {
    var target, keepAlive := site.target(request), site.keepAlive(request);
    if !Acceptable(target) then ErrorResponse(400, keepAlive)
    else
      var path := FilePath(site.docRoot, target);
      if site.opens(path) then Response(200, keepAlive, MimeTypes.MimeType(path), File(path))
      else ErrorResponse(500, keepAlive)
  }

  ghost predicate Contains(s: string, part: string) {
    exists i :: 0 <= i <= |s| && part <= s[i..]
  }

  /** The file a target stands for: the document root, less a slash at its end, then the target,
      then an index page where the target ends in a slash. */
  ghost predicate StandsFor(docRoot: string, target: string, path: string) {
    && target != ""
    && exists root :: Names(docRoot, root) &&
         path == root + target + (if target[|target| - 1] == '/' then "index.html" else "")
  }

  /** What a response owes its request, field by field: whether the connection is kept is up to
      the request; a target that is empty, not absolute or holds ".." is refused; otherwise the
      file it stands for is served, with the type of its extension, if it opens. */
  ghost predicate Answers(site: Site, request: seq<byte>, res: Response) {
    var target := site.target(request);
    && res.keepAlive == site.keepAlive(request)
    && (res.status == 400 <==> target == "" || target[0] != '/' || Contains(target, ".."))
    && (res.status == 200 || res.status == 400 || res.status == 500)
    && (res.status == 200 ==> Serves(site, target, res))
    && (res.status == 500 ==> forall path | StandsFor(site.docRoot, target, path) :: !site.opens(path))
    && (res.status != 200 ==> res.content == Page && res.contentType == "text/html; charset=iso-8859-1")
  }

  ghost predicate Serves(site: Site, target: string, res: Response) {
    && res.content.File? && StandsFor(site.docRoot, target, res.content.path) && site.opens(res.content.path)
    && res.contentType == MimeTypes.MimeType(res.content.path)
  }

  lemma DotDotContained(s: string)
    ensures HasDotDot(s) <==> Contains(s, "..")
  {
    if HasDotDot(s) {
      var i :| 0 <= i < |s| - 1 && s[i] == '.' && s[i + 1] == '.';
      assert ".." <= s[i..];
    }
    if Contains(s, "..") {
      var i :| 0 <= i <= |s| && ".." <= s[i..];
      assert s[i] == s[i..][0] && s[i + 1] == s[i..][1];
    }
  }

  /** There is exactly one file a target stands for. */
  lemma StandsForOne(docRoot: string, target: string, path: string)
    requires target != ""
    ensures StandsFor(docRoot, target, path) <==> path == FilePath(docRoot, target)
  {
    var root := WithoutTrailingSlash(docRoot);
    RootNamed(docRoot, root);
    FilePathIs(docRoot, target, root);
    if StandsFor(docRoot, target, path) {
      var root' :| Names(docRoot, root') &&
        path == root' + target + (if target[|target| - 1] == '/' then "index.html" else "");
      RootNamed(docRoot, root');
    }
  }

  lemma AnswerAnswers(site: Site, request: seq<byte>)
    ensures Answers(site, request, Answer(site, request))
  {
    var target := site.target(request);
    DotDotContained(target);
    if target != "" {
      forall path
        ensures StandsFor(site.docRoot, target, path) <==> path == FilePath(site.docRoot, target)
      {
        StandsForOne(site.docRoot, target, path);
      }
    }
  }

  /** Build the path to the requested file. */
  method FindFile(docRoot: string, target: string) returns (path: string)
    requires target != ""
    ensures path == FilePath(docRoot, target)
  {
    path := PathCat(docRoot, target);
    if target[|target| - 1] == '/' {
      path := path + "index.html";
    }
  }

  /** Build the path and look for the file; any target that is not acceptable is refused first. */
  method HandleRequest(site: Site, request: seq<byte>) returns (res: Response)
    ensures res == Answer(site, request) && Answers(site, request, res)
  {
    hide Answers;
    AnswerAnswers(site, request);
    var target := site.target(request);
    if target == "" || target[0] != '/' || HasDotDot(target) {
      return ErrorResponse(400, site.keepAlive(request));
    }
    var path := FindFile(site.docRoot, target);
    if site.opens(path) {
      MimeTypes.ExtensionIdempotent(path);
      return Response(200, site.keepAlive(request), MimeTypes.MimeType(MimeTypes.GetExtension(path)), File(path));
    }
    res := ErrorResponse(500, site.keepAlive(request));
  }

  /** A response that names a file names one at or below the document root. */
  lemma AnswersStayBelowRoot(site: Site, request: seq<byte>, res: Response)
    requires Answers(site, request, res) && res.content.File?
    ensures AtOrBelow(site.docRoot, res.content.path)
  {
    var target := site.target(request);
    DotDotContained(target);
    StandsForOne(site.docRoot, target, res.content.path);
    PathStaysBelowRoot(site.docRoot, target);
  }

  /** No request makes the server name a file above its document root. The answer depends on the
      file system exactly when the target is acceptable: a refused request never gets as far. */
  lemma FilesStayBelowRoot(site: Site, request: seq<byte>)
    ensures var res := Answer(site, request);
            res.content.File? ==> res.status == 200 && AtOrBelow(site.docRoot, res.content.path)
    ensures Acceptable(site.target(request)) <==>
              exists opens, opens' :: Answer(site.(opens := opens), request) != Answer(site.(opens := opens'), request)
  {
    var all: string -> bool, none: string -> bool := path => true, path => false;
    if Acceptable(site.target(request)) {
      PathStaysBelowRoot(site.docRoot, site.target(request));
      assert Answer(site.(opens := all), request) != Answer(site.(opens := none), request);
    }
  }
}
