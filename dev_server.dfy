/** The development-server plugin (`vite/plugins/multiPagePlugin.ts`): at
    configure time it resolves and checks the pages directory; its middleware
    then answers requests for `.html` URLs from that directory and hands
    every other request to the next handler. */
module DevServer {
  import opened Paths
  import opened Fs
  import opened Pages

  /** How the middleware ends one request. */
  datatype Reply =
      /** `res.setHeader("Content-Type", …)` then `res.end(contents)`; `next()` is not called. */
    | Serve(contentType: string, body: Bytes)
      /** `next()`; nothing is written to the response. */
    | Next
      /** `readFileSync` throws because the path is a directory: the handler
          throws after setting the header. */
    | ReadFailed(path: Path)

  /** The installed middleware: the pages directory resolved at configure time. */
  datatype Middleware = Middleware(pagesDir: Path)

  const HtmlContentType := "text/html"

  /** The file a `.html` URL is looked up as: the URL less one leading '/',
      resolved against the pages directory. */
  function PagePath(pagesDir: Path, url: string): Path
  {
    Resolve(pagesDir, StripLeadingSlash(url))
  }

  /** The middleware's handling of a request whose URL is `url` (`None` when
      the request has none), against the filesystem as it is at that moment. */
  function Handle(t: Tree, m: Middleware, url: Option<string>): (r: Reply)
    ensures r.Next? <==>
      url.None? || !EndsWith(url.value, HtmlExt) || !Present(t, PagePath(m.pagesDir, url.value))
    ensures r.Serve? <==>
      url.Some? && EndsWith(url.value, HtmlExt) && PagePath(m.pagesDir, url.value) in t.files
    ensures r.Serve? ==>
      r.contentType == HtmlContentType && r.body == t.files[PagePath(m.pagesDir, url.value)]
    ensures r.ReadFailed? ==> url.Some? && r.path == PagePath(m.pagesDir, url.value) && r.path in t.dirs
  {
    if url.Some? && EndsWith(url.value, HtmlExt) then
      var pagePath := PagePath(m.pagesDir, url.value);
      if Present(t, pagePath) then
        if pagePath in t.files then Serve(HtmlContentType, t.files[pagePath])
        else ReadFailed(pagePath)
      else Next
    else Next
  }

  /** `configureServer` of `multipageDevPlugin`: `getPagesDir` runs before
      the middleware is installed, so a missing directory stops the server
      from starting. */
  function Configure(t: Tree, start: Path, pagesPath: string): (r: Result<Middleware>)
    ensures r.Ok? <==> PagesDir(t, start, pagesPath).Ok?
    ensures r.Ok? ==> Present(t, r.value.pagesDir)
    ensures r.Ok? ==> r.value.pagesDir == Resolve(ProjectRoot(t, start).value, pagesPath)
    ensures r.Err? ==> r.error == PagesDir(t, start, pagesPath).error
  {
    match PagesDir(t, start, pagesPath)
    case Err(e) => Err(e)
    case Ok(pagesDir) => Ok(Middleware(pagesDir))
  }

  /** `configureServer` of `multipageDevPluginAuto`: the detected candidate
      replaces the explicit path; finding none stops the server from starting. */
  method ConfigureAuto(fs: FileSystem, start: Path) returns (r: Result<Middleware>)
    ensures match DetectedPagesDir(fs.State(), start)
      case Err(e) => r == Err(e)
      case Ok(None) => r == Err(AutoDetectFailed(PageDirCandidates))
      case Ok(Some(found)) =>
        && ProjectRoot(fs.State(), start).Ok?
        && r == Ok(Middleware(Resolve(ProjectRoot(fs.State(), start).value, found)))
        && Present(fs.State(), r.value.pagesDir)
  {
    var detectedPath := DetectPagesDir(fs, start);
    if detectedPath.Err? {
      return Err(detectedPath.error);
    }
    if detectedPath.value.None? {
      return Err(AutoDetectFailed(PageDirCandidates));
    }
    ghost var root := ProjectRoot(fs.State(), start).value;
    FirstExistingIsFirst(fs.State(), root, PageDirCandidates);
    r := Configure(fs.State(), start, detectedPath.value.value);
  }

  // ---------------------------------------------------------------------------
  // Lemmas

  /** A request for `/<name>` with `name` a page file of the pages directory
      is answered with that file's contents as HTML. */
  lemma ServesPageByName(t: Tree, m: Middleware, name: string)
    requires IsName(name) && EndsWith(name, HtmlExt)
    requires m.pagesDir + [name] in t.files
    ensures Handle(t, m, Some("/" + name)) == Serve(HtmlContentType, t.files[m.pagesDir + [name]])
  {
    var url := "/" + name;
    assert StripLeadingSlash(url) == name;
    ResolveName(m.pagesDir, name);
    assert PagePath(m.pagesDir, url) == m.pagesDir + [name];
    assert url[|url| - |HtmlExt|..] == name[|name| - |HtmlExt|..];
    assert EndsWith(url, HtmlExt);
  }

  /** A request for `/<name>` with nothing of that name in the pages
      directory goes to the next handler. */
  lemma MissingPageFallsThrough(t: Tree, m: Middleware, name: string)
    requires IsName(name) && EndsWith(name, HtmlExt)
    requires !Present(t, m.pagesDir + [name])
    ensures Handle(t, m, Some("/" + name)) == Next
  {
    var url := "/" + name;
    assert StripLeadingSlash(url) == name;
    ResolveName(m.pagesDir, name);
  }

  /** A URL with a query string does not end in `.html`, so even an existing
      page is not intercepted. */
  lemma QueryStringFallsThrough(t: Tree, m: Middleware)
    ensures Handle(t, m, Some("/a.html?x=1")) == Next
  {
    var url := "/a.html?x=1";
    assert url[|url| - 1] == '1' != HtmlExt[|HtmlExt| - 1];
  }

  /** A URL whose path, less its leading '/', is a list of plain names is
      looked up below the pages directory. */
  lemma LookupBelowPagesDir(pagesDir: Path, url: string)
    requires |url| > 0 && url[0] == '/'
    requires forall i :: 0 <= i < |Split(url[1..], '/')| ==> IsName(Split(url[1..], '/')[i])
    ensures PagePath(pagesDir, url) == pagesDir + Split(url[1..], '/')
  {
    NormalizeNames(pagesDir, Split(url[1..], '/'));
  }

  /** Only one '/' is stripped: `//x.html` is looked up at the filesystem root. */
  lemma DoubleSlashLooksUpAtRoot(pagesDir: Path)
    ensures PagePath(pagesDir, "//x.html") == ["x.html"]
  {
    assert StripLeadingSlash("//x.html") == "/x.html";
    assert "/x.html" == JoinWith(["", "x.html"], '/');
    SplitJoin(["", "x.html"], '/');
    assert Normalize([], ["", "x.html"]) == Normalize([], ["x.html"]);
    assert Normalize([], ["x.html"]) == Normalize(["x.html"], []);
  }

  /** A `..` segment climbs out of the pages directory. */
  lemma DotDotLeavesPagesDir(dir: Path)
    ensures PagePath(dir + ["pages"], "/../x.html") == dir + ["x.html"]
  {
    assert StripLeadingSlash("/../x.html") == "../x.html";
    assert "../x.html" == JoinWith(["..", "x.html"], '/');
    SplitJoin(["..", "x.html"], '/');
    assert Normalize(dir + ["pages"], ["..", "x.html"]) == Normalize(dir, ["x.html"]);
    assert Normalize(dir, ["x.html"]) == Normalize(dir + ["x.html"], []);
  }
}
