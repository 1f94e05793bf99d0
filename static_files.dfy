/**
 * Requests outside `/api/` are served from the `./src` directory. The files that
 * can be read are a set of path strings; the content of a file is not modelled,
 * only which path is read and with which `Content-Type`.
 */
module StaticFiles {
  import opened Wrappers
  import opened Text
  import opened Http

  /** The extension table, in its source order; an extension not in it is served as `text/plain`. */
  const MimeTypes: seq<(string, string)> := [
    (".html", "text/html"),
    (".js", "text/javascript"),
    (".css", "text/css"),
    (".json", "application/json"),
    (".png", "image/png"),
    (".jpg", "image/jpg"),
    (".jpeg", "image/jpeg"),
    (".gif", "image/gif"),
    (".svg", "image/svg+xml"),
    (".wav", "audio/wav"),
    (".mp4", "video/mp4"),
    (".woff", "application/font-woff"),
    (".ttf", "application/font-ttf"),
    (".eot", "application/vnd.ms-fontobject"),
    (".otf", "application/font-otf"),
    (".wasm", "application/wasm")
  ]

  /** The value of `key` in an object literal given as its entries. */
  function Lookup(table: seq<(string, string)>, key: string): (r: Option<string>)
    ensures r.Some? ==> (key, r.value) in table
    ensures r.None? ==> forall i :: 0 <= i < |table| ==> table[i].0 != key
  {
    if table == [] then None
    else if table[0].0 == key then Some(table[0].1)
    else Lookup(table[1..], key)
  }

  /** `mimeTypes[ext] || 'text/plain'`. */
  function MimeFor(ext: string): (t: string)
    ensures Lookup(MimeTypes, ext).Some? ==> t == Lookup(MimeTypes, ext).value
    ensures (forall i :: 0 <= i < |MimeTypes| ==> MimeTypes[i].0 != ext) ==> t == "text/plain"
  {
    Lookup(MimeTypes, ext).GetOr("text/plain")
  }

  /** `/` is the home page; every other pathname is looked up under `./src`. */
  function FilePath(pathname: string): (f: string)
    ensures pathname == "/" ==> f == "./src/index.html"
    ensures pathname != "/" ==> f == "./src" + pathname
  {
    if pathname == "/" then "./src/index.html" else "./src" + pathname
  }

  /** The path without its trailing run of '/'. */
  function StripTrailingSlashes(p: string): (r: string)
    ensures |r| <= |p| && r == p[..|r|]
    ensures r == [] || r[|r| - 1] != '/'
    ensures forall k :: |r| <= k < |p| ==> p[k] == '/'
  {
    if p != [] && p[|p| - 1] == '/' then StripTrailingSlashes(p[..|p| - 1]) else p
  }

  /** The last path component, trailing separators ignored. */
  function BaseName(p: string): string {
    LastSegment(StripTrailingSlashes(p))
  }

  /**
   * `path.parse(p).ext`: from the last '.' of the last component to its end, except that
   * a component with no '.', one whose only leading character is that '.' (`.bashrc`)
   * and the component `..` have no extension.
   */
  function ExtName(p: string): (e: string)
    ensures e == "" || (e[0] == '.' && NoneIs(e[1..], '.') && NoneIs(e, '/') && EndsWith(BaseName(p), e))
    ensures e != "" ==> |e| < |BaseName(p)|
    // No extension exactly when the base name has no '.' after its first character, or is `..`.
    ensures e == "" <==> (|BaseName(p)| <= 1 || BaseName(p) == ".." || NoneIs(BaseName(p)[1..], '.'))
  {
    var b := BaseName(p);
    match LastIndexOf(b, '.')
    case None => ""
    case Some(i) =>
      if i == 0 || b == ".." then ""
      else
        SuffixFromLastDot(b, i);
        assert b[1..][i - 1] == '.';
        b[i..]
  }

  /** The text from the last '.' of a component on is a '.' followed by no '.' and no '/'. */
  lemma SuffixFromLastDot(b: string, i: nat)
    requires i < |b| && b[i] == '.' && NoneIs(b[i + 1..], '.') && NoneIs(b, '/')
    ensures var e := b[i..]; e[0] == '.' && NoneIs(e[1..], '.') && NoneIs(e, '/') && EndsWith(b, e)
  {
    var e := b[i..];
    assert e[1..] == b[i + 1..];
    forall k | 0 <= k < |e| ensures e[k] != '/' {
      assert e[k] == b[i + k];
    }
  }

  /** What the static branch does with a pathname. */
  datatype StaticResult =
    | Redirect(location: string)
    | Serve(path: string, contentType: string)
    | Missing

  /**
   * Exact `/admin` redirects to the dashboard; a readable file is served with the type of
   * its extension; a missing file without extension is retried with `.html`.
   */
  function Resolve(pathname: string, files: set<string>): (r: StaticResult)
    ensures r.Redirect? <==> pathname == "/admin"
    ensures r.Redirect? ==> r.location == "/admin/dashboard.html"
    ensures r.Serve? ==> r.path in files
    ensures r.Serve? ==> r.path == FilePath(pathname) || (ExtName(FilePath(pathname)) == "" && r.path == FilePath(pathname) + ".html")
    ensures pathname != "/admin" && FilePath(pathname) in files ==>
      r == Serve(FilePath(pathname), MimeFor(ExtName(FilePath(pathname))))
    ensures (pathname != "/admin" && FilePath(pathname) !in files && ExtName(FilePath(pathname)) == ""
      && FilePath(pathname) + ".html" in files) ==> r == Serve(FilePath(pathname) + ".html", "text/html")
    ensures r == Missing <==>
      pathname != "/admin" && FilePath(pathname) !in files &&
      (ExtName(FilePath(pathname)) != "" || FilePath(pathname) + ".html" !in files)
  {
    var fp := FilePath(pathname);
    assert fp == "./src/admin" <==> pathname == "/admin" by {
      if pathname != "/" && fp == "./src/admin" {
        assert fp[5..] == pathname;
      }
    }
    if fp == "./src/admin" then Redirect("/admin/dashboard.html")
    else
      var ext := ExtName(fp);
      if fp in files then Serve(fp, MimeFor(ext))
      else if ext == "" && fp + ".html" in files then Serve(fp + ".html", "text/html")
      else Missing
  }

  const NotFoundHeaders: map<string, string> := map["Content-Type" := "text/html"]

  /** The response written for a static result (these responses carry no CORS headers). */
  function StaticResponse(r: StaticResult): (resp: Response)
    ensures r.Redirect? ==> resp.status == 301 && resp.headers == map["Location" := r.location]
    ensures r.Serve? ==> resp == Response(200, map["Content-Type" := r.contentType], FileContents(r.path))
    ensures r.Missing? ==> resp == Response(404, NotFoundHeaders, NotFoundPage)
  {
    match r
    case Redirect(location) => Response(301, map["Location" := location], NoBody)
    case Serve(path, contentType) => Response(200, map["Content-Type" := contentType], FileContents(path))
    case Missing => Response(404, NotFoundHeaders, NotFoundPage)
  }

  /** The base name of `<dir>/<name>` is name when name has no '/' and is not empty. */
  lemma BaseNameOfFile(dir: string, name: string)
    requires name != [] && NoneIs(name, '/')
    ensures BaseName(dir + "/" + name) == name
  {
    var p := dir + "/" + name;
    assert p[|p| - 1] == name[|name| - 1];
    assert StripTrailingSlashes(p) == p;
    LastSegmentAfterSlash(dir, name);
  }

  /** `<stem>.<ext>` has no '/', its last '.' is the one after the stem, and it is not `..`. */
  lemma StemDotExt(stem: string, ext: string)
    requires stem != [] && NoneIs(stem, '.') && NoneIs(stem, '/')
    requires NoneIs(ext, '.') && NoneIs(ext, '/')
    ensures var name := stem + "." + ext;
      && name != [] && NoneIs(name, '/') && name != ".."
      && LastIndexOf(name, '.') == Some(|stem|) && name[|stem|..] == "." + ext
  {
    var name := stem + ['.'] + ext;
    assert name == stem + "." + ext;
    forall k | 0 <= k < |name| ensures name[k] != '/' {
      if k < |stem| { assert name[k] == stem[k]; }
      else if k > |stem| { assert name[k] == ext[k - |stem| - 1]; }
    }
    LastIndexOfBefore(stem, '.', ext);
    assert name[0] == stem[0] != '.';
  }

  /** The extension of `<dir>/<stem>.<ext>` when the stem has no '.' and does not start one. */
  lemma ExtNameOfFile(dir: string, stem: string, ext: string)
    requires stem != [] && NoneIs(stem, '.') && NoneIs(stem, '/')
    requires NoneIs(ext, '.') && NoneIs(ext, '/')
    ensures ExtName(dir + "/" + stem + "." + ext) == "." + ext
  {
    var name := stem + "." + ext;
    var p := dir + "/" + name;
    assert dir + "/" + stem + "." + ext == p;
    StemDotExt(stem, ext);
    BaseNameOfFile(dir, name);
    var b := BaseName(p);
    assert b == name;
    assert LastIndexOf(b, '.') == Some(|stem|);
    assert b[|stem|..] == "." + ext;
  }

  /** `./src/index.html` spelled out as directory, stem and extension. */
  lemma SrcPaths()
    ensures "./src" + "/" + "index" + "." + "html" == "./src/index.html"
  {
    assert "./src" + "/" == "./src/";
    assert "./src/" + "index" == "./src/index";
    assert "./src/index" + "." == "./src/index.";
  }

  lemma IndexNames()
    ensures NoneIs("index", '.') && NoneIs("index", '/') && NoneIs("html", '.') && NoneIs("html", '/')
  {
  }

  lemma IndexExtension()
    ensures ExtName("./src/index.html") == ".html"
  {
    IndexNames();
    SrcPaths();
    ExtNameOfFile("./src", "index", "html");
  }

  /** The home page is served as HTML. */
  lemma HomePage(files: set<string>)
    requires "./src/index.html" in files
    ensures Resolve("/", files) == Serve("./src/index.html", "text/html")
  {
    IndexExtension();
    assert MimeFor(".html") == "text/html";
  }

  lemma AboutHasNoSeparator()
    ensures NoneIs("about", '.') && NoneIs("about", '/')
  {
  }

  lemma AboutBaseName()
    ensures BaseName("./src/about") == "about" && LastIndexOf("about", '.') == None
  {
    AboutHasNoSeparator();
    assert "./src" + "/" + "about" == "./src/about";
    BaseNameOfFile("./src", "about");
  }

  /** A clean URL such as `/about` is served from `about.html` when there is no file `about`. */
  lemma CleanUrlFallsBackToHtml(files: set<string>)
    requires "./src/about" !in files && "./src/about.html" in files
    ensures Resolve("/about", files) == Serve("./src/about.html", "text/html")
  {
    AboutBaseName();
    assert FilePath("/about") == "./src/about";
    assert "./src/about" + ".html" == "./src/about.html";
  }

  /** Entries before the `i`-th whose key differs from `key` do not affect the lookup. */
  lemma {:induction false} LookupSkip(table: seq<(string, string)>, key: string, i: nat)
    requires i <= |table| && forall j :: 0 <= j < i ==> table[j].0 != key
    ensures Lookup(table, key) == Lookup(table[i..], key)
  {
    if i > 0 {
      assert table[1..][i - 1..] == table[i..];
      LookupSkip(table[1..], key, i - 1);
    }
  }

  lemma LookupHead(table: seq<(string, string)>, key: string)
    requires table != [] && table[0].0 == key
    ensures Lookup(table, key) == Some(table[0].1)
  {
  }

  lemma KeysBeforeImages()
    ensures forall j :: 0 <= j < 4 ==> MimeTypes[j].0[1] != 'p' && MimeTypes[j].0 != ".jpg"
    ensures MimeTypes[4].0 != ".jpg"
  {
    assert MimeTypes[0].0[1] == 'h';
    assert MimeTypes[1].0[1] == 'j' && |MimeTypes[1].0| == 3;
    assert MimeTypes[2].0[1] == 'c';
    assert MimeTypes[3].0[2] == 's';
    assert MimeTypes[4].0[1] == 'p';
  }

  lemma ImageEntries()
    ensures |MimeTypes| > 5
    ensures MimeTypes[4] == (".png", "image/png") && MimeTypes[5] == (".jpg", "image/jpg")
  {
  }

  /** PNG files are served as `image/png`. */
  lemma PngMime()
    ensures MimeFor(".png") == "image/png"
  {
    KeysBeforeImages();
    ImageEntries();
    assert ".png"[1] == 'p';
    LookupSkip(MimeTypes, ".png", 4);
    LookupHead(MimeTypes[4..], ".png");
  }

  /** JPEG files written with the `.jpg` extension are served as `image/jpg`. */
  lemma JpgMime()
    ensures MimeFor(".jpg") == "image/jpg"
  {
    KeysBeforeImages();
    ImageEntries();
    LookupSkip(MimeTypes, ".jpg", 5);
    LookupHead(MimeTypes[5..], ".jpg");
  }

  /** `/admin/` is not `/admin`: it is looked up as a directory path and is not redirected. */
  lemma OnlyExactAdminRedirects(files: set<string>)
    ensures Resolve("/admin", files) == Redirect("/admin/dashboard.html")
    ensures !Resolve("/admin/", files).Redirect?
  {
  }
}
