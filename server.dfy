/**
 * The HTTP server: request bodies are collected and parsed, the router picks a
 * handler, and the handlers read and change the database (the `products`,
 * `branches` and `settings` tables) and the image directory.
 *
 * `JSON.parse` is a parameter (`parse`, None for a syntax error); `datetime('now')`,
 * `Date.now()`, the random file-name suffix and the outcome of `fs.writeFileSync`
 * are fields of `Env`.
 */
module Server {
  import opened Wrappers
  import opened Text
  import opened Lists
  import opened Tables
  import opened Records
  import opened Http
  import opened Router
  import opened Upload
  import opened StaticFiles

  // ---------------------------------------------------------------------------
  // collectJSON
  // ---------------------------------------------------------------------------

  /**
   * The body as the `data` events deliver it, chunk after chunk. Each chunk is already
   * decoded text here; the bytes of a chunk and their decoding are not modelled.
   */
  function Concat(chunks: seq<string>): string {
    if chunks == [] then "" else Concat(chunks[..|chunks| - 1]) + chunks[|chunks| - 1]
  }

  /** Joining the decoded chunks distributes over concatenation of the chunk list. */
  lemma {:induction false} ConcatAppend(a: seq<string>, b: seq<string>)
    ensures Concat(a + b) == Concat(a) + Concat(b)
    decreases |b|
  {
    if b == [] {
      assert a + b == a;
    } else {
      assert (a + b)[..|a + b| - 1] == a + b[..|b| - 1];
      ConcatAppend(a, b[..|b| - 1]);
    }
  }

  /**
   * `JSON.parse(body || '{}')`, where a parse error is caught and read as `{}`. The same
   * `catch` also runs the handler a second time, with `{}`, when the handler itself
   * throws; no modelled handler throws, since the bodies hold only string members.
   */
  function ParseBody(raw: string, parse: string -> Option<Json>): (body: Json)
    ensures raw == "" ==> body == Object(map[])
    ensures raw != "" && parse(raw).None? ==> body == Object(map[])
    ensures raw != "" && parse(raw).Some? ==> body == parse(raw).value
  {
    if raw == "" then Object(map[])
    else
      match parse(raw)
      case None => Object(map[])
      case Some(value) => value
  }

  /** `collectJSON(req, cb)`: appends every chunk to `body`, then parses it. */
  method CollectJson(chunks: seq<string>, parse: string -> Option<Json>) returns (body: Json)
    ensures body == ParseBody(Concat(chunks), parse)
  {
    var raw := "";
    var i := 0;
    while i < |chunks|
      invariant 0 <= i <= |chunks|
      invariant raw == Concat(chunks[..i])
    {
      assert chunks[..i + 1][..i] == chunks[..i];
      raw := raw + chunks[i];
      i := i + 1;
    }
    assert chunks[..i] == chunks;
    body := ParseBody(raw, parse);
  }

  /** An empty or malformed body is `{}`, so every field of a created or updated row is "". */
  lemma BadBodyMeansEmptyFields(chunks: seq<string>, parse: string -> Option<Json>)
    requires Concat(chunks) == "" || parse(Concat(chunks)).None?
    ensures ProductOf(ParseBody(Concat(chunks), parse)) == ProductFields("", "", "")
    ensures BranchOf(ParseBody(Concat(chunks), parse)) == BranchFields("", "", "", "")
    ensures MembersOf(ParseBody(Concat(chunks), parse)) == map[]
  {
  }

  /** A product the page sends with `JSON.stringify` and that parses back is stored as sent. */
  lemma SentProductIsStored(chunks: seq<string>, parse: string -> Option<Json>, p: ProductFields)
    requires Concat(chunks) != "" && parse(Concat(chunks)) == Some(ProductJson(p))
    ensures ProductOf(ParseBody(Concat(chunks), parse)) == p
  {
    ProductRoundTrip(p);
  }

  /** The same for a branch. */
  lemma SentBranchIsStored(chunks: seq<string>, parse: string -> Option<Json>, b: BranchFields)
    requires Concat(chunks) != "" && parse(Concat(chunks)) == Some(BranchJson(b))
    ensures BranchOf(ParseBody(Concat(chunks), parse)) == b
  {
    BranchRoundTrip(b);
  }

  // ---------------------------------------------------------------------------
  // The state the server works on
  // ---------------------------------------------------------------------------

  /** What the database file and the image directory hold when the process starts. */
  datatype Disk = Disk(
    products: seq<Row<ProductFields>>, productSeq: nat,
    branches: seq<Row<BranchFields>>, branchSeq: nat,
    settings: Option<Settings>,
    files: set<string>)

  predicate DiskWellFormed(d: Disk) {
    WellFormed(d.products, d.productSeq) && WellFormed(d.branches, d.branchSeq)
  }

  /** A first start: no database file yet, nothing uploaded. */
  const FreshDisk := Disk([], 0, [], 0, None, {})

  /** One request: its method, the pathname of its URL and the chunks of its body. */
  datatype Request = Request(verb: string, pathname: string, chunks: seq<string>)

  /** Everything a request depends on besides the server's state. */
  datatype Env = Env(
    parse: string -> Option<Json>,
    now: string,
    clockMs: nat,
    rand: string,
    writeOk: bool)

  /** The values a request can read or change. */
  datatype State = State(
    products: seq<Row<ProductFields>>, productSeq: nat,
    branches: seq<Row<BranchFields>>, branchSeq: nat,
    settings: Settings,
    files: set<string>)

  predicate IsQuery(route: Route) {
    route.Preflight? || route.Health? || route.ListProducts? || route.ListBranches?
    || route.GetSettings? || route.ApiNotFound? || route.Static?
  }

  predicate IsProductWrite(route: Route) {
    route.CreateProduct? || route.UpdateProduct? || route.DeleteProduct?
  }

  predicate IsBranchWrite(route: Route) {
    route.CreateBranch? || route.UpdateBranch? || route.DeleteBranch?
  }

  /** The answer of a read-only route in state `s`. */
  ghost predicate QueryEffect(route: Route, pathname: string, s: State, r: Response) {
    && ((route.Preflight? || route.Health?) ==> r == SendJson(200, OkTrue))
    && (route.ApiNotFound? ==> r == JsonNotFound)
    && (route.Static? ==> r == StaticResponse(Resolve(pathname, s.files)))
    && (route.ListProducts? ==> r == SendJson(200, ProductList(ListDescending(s.products))))
    && (route.ListBranches? ==> r == SendJson(200, BranchList(ListDescending(s.branches))))
    && (route.GetSettings? ==> r == SendJson(200, SettingsBody(s.settings)))
  }

  /**
   * A products route: a new row with the next id; the row with that id overwritten, or 404;
   * the row with that id gone, or 404. Nothing but the products table changes.
   */
  ghost predicate ProductEffect(route: Route, body: Json, now: string, s0: State, s: State, r: Response) {
    && s.branches == s0.branches && s.branchSeq == s0.branchSeq
    && s.settings == s0.settings && s.files == s0.files
    && match route
       case CreateProduct =>
         && s.productSeq == s0.productSeq + 1
         && s.products == s0.products + [Row(s.productSeq, ProductOf(body), now)]
         && r == SendJson(201, ProductBody(s.productSeq, ProductOf(body)))
       case UpdateProduct(id) =>
         && s.productSeq == s0.productSeq
         && if id in IdSet(s0.products) then
              s.products == Update(s0.products, id, ProductOf(body)) && r == SendJson(200, ProductBody(id, ProductOf(body)))
            else s.products == s0.products && r == JsonNotFound
       case DeleteProduct(id) =>
         && s.productSeq == s0.productSeq
         && s.products == Delete(s0.products, id)
         && r == (if id in IdSet(s0.products) then SendJson(200, OkTrue) else JsonNotFound)
       case _ => true
  }

  /** The same for the branches routes. */
  ghost predicate BranchEffect(route: Route, body: Json, now: string, s0: State, s: State, r: Response) {
    && s.products == s0.products && s.productSeq == s0.productSeq
    && s.settings == s0.settings && s.files == s0.files
    && match route
       case CreateBranch =>
         && s.branchSeq == s0.branchSeq + 1
         && s.branches == s0.branches + [Row(s.branchSeq, BranchOf(body), now)]
         && r == SendJson(201, BranchBody(s.branchSeq, BranchOf(body)))
       case UpdateBranch(id) =>
         && s.branchSeq == s0.branchSeq
         && if id in IdSet(s0.branches) then
              s.branches == Update(s0.branches, id, BranchOf(body)) && r == SendJson(200, BranchBody(id, BranchOf(body)))
            else s.branches == s0.branches && r == JsonNotFound
       case DeleteBranch(id) =>
         && s.branchSeq == s0.branchSeq
         && s.branches == Delete(s0.branches, id)
         && r == (if id in IdSet(s0.branches) then SendJson(200, OkTrue) else JsonNotFound)
       case _ => true
  }

  /** `PUT /api/settings` replaces the blob and echoes it; nothing else changes. */
  ghost predicate SettingsEffect(body: Json, s0: State, s: State, r: Response) {
    s == s0.(settings := MembersOf(body)) && r == SendJson(200, SettingsBody(MembersOf(body)))
  }

  /** `POST /api/upload-image` answers as the upload handler does and adds the file it wrote. */
  ghost predicate UploadEffect(body: Json, env: Env, s0: State, s: State, r: Response) {
    var u := Upload.UploadImage(body, env.clockMs, env.rand, env.writeOk);
    && r == u.response
    && s == s0.(files := s0.files + if u.written.Some? then {u.written.value.path} else {})
  }

  /** What the server does with one request in state `s0`: the new state `s` and the answer `r`. */
  ghost predicate Effect(req: Request, env: Env, s0: State, s: State, r: Response) {
    var route, body := Dispatch(req.verb, req.pathname), ParseBody(Concat(req.chunks), env.parse);
    if IsProductWrite(route) then ProductEffect(route, body, env.now, s0, s, r)
    else if IsBranchWrite(route) then BranchEffect(route, body, env.now, s0, s, r)
    else if route.PutSettings? then SettingsEffect(body, s0, s, r)
    else if route.UploadImage? then UploadEffect(body, env, s0, s, r)
    else s == s0 && QueryEffect(route, req.pathname, s0, r)
  }

  /**
   * Every answer to an OPTIONS request or to an `/api/` path is written by `sendJSON`, so it
   * carries the JSON content type and the CORS headers; no other answer has a CORS header.
   */
  lemma CorsOnApiResponses(req: Request, env: Env, s0: State, s: State, r: Response)
    requires Effect(req, env, s0, s, r)
    ensures EffectiveMethod(req.verb) == "OPTIONS" || StartsWith(req.pathname, ApiPrefix) ==> r.headers == JsonHeaders
    ensures !(EffectiveMethod(req.verb) == "OPTIONS" || StartsWith(req.pathname, ApiPrefix)) ==>
      "Access-Control-Allow-Origin" !in r.headers
  {
    var route, body := Dispatch(req.verb, req.pathname), ParseBody(Concat(req.chunks), env.parse);
    if IsProductWrite(route) {
      ProductAnswersAreJson(route, body, env.now, s0, s, r);
    } else if IsBranchWrite(route) {
      BranchAnswersAreJson(route, body, env.now, s0, s, r);
    } else if route.UploadImage? {
      var u := Upload.UploadImage(body, env.clockMs, env.rand, env.writeOk);
      assert u.response.headers == JsonHeaders;
    } else if route.Static? {
      StaticHasNoCors(Resolve(req.pathname, s0.files));
    } else if !route.PutSettings? {
      QueryAnswersAreJson(route, req.pathname, s0, r);
    }
  }

  lemma QueryAnswersAreJson(route: Route, pathname: string, s: State, r: Response)
    requires IsQuery(route) && !route.Static? && QueryEffect(route, pathname, s, r)
    ensures r.headers == JsonHeaders
  {
  }

  lemma ProductAnswersAreJson(route: Route, body: Json, now: string, s0: State, s: State, r: Response)
    requires IsProductWrite(route) && ProductEffect(route, body, now, s0, s, r)
    ensures r.headers == JsonHeaders
  {
  }

  lemma BranchAnswersAreJson(route: Route, body: Json, now: string, s0: State, s: State, r: Response)
    requires IsBranchWrite(route) && BranchEffect(route, body, now, s0, s, r)
    ensures r.headers == JsonHeaders
  {
  }

  /** The redirect, a served file and the 404 page carry only their own header. */
  lemma StaticHasNoCors(res: StaticResult)
    ensures "Access-Control-Allow-Origin" !in StaticResponse(res).headers
  {
  }

  class Server {
    var products: seq<Row<ProductFields>>
    var productSeq: nat
    var branches: seq<Row<BranchFields>>
    var branchSeq: nat
    var settings: Settings
    /** The readable files under `./src`, uploads included. */
    var files: set<string>
    /** Every product id that has ever been issued. */
    ghost var issuedProducts: set<int>
    /** Every branch id that has ever been issued. */
    ghost var issuedBranches: set<int>

    /**
     * Both tables are well formed; every id in a table has been issued; every issued
     * id is at most the table's sequence value, so the next one is new.
     */
    ghost predicate Valid()
      reads this
    {
      && WellFormed(products, productSeq) && WellFormed(branches, branchSeq)
      && IdSet(products) <= issuedProducts && IdSet(branches) <= issuedBranches
      && (forall id | id in issuedProducts :: 1 <= id <= productSeq)
      && (forall id | id in issuedBranches :: 1 <= id <= branchSeq)
    }

    function Snapshot(): State
      reads this
    {
      State(products, productSeq, branches, branchSeq, settings, files)
    }

    /** Opening the database: `CREATE TABLE IF NOT EXISTS` keeps tables, the settings row is seeded once. */
    constructor Open(disk: Disk)
      requires DiskWellFormed(disk)
      ensures Valid()
      ensures products == disk.products && productSeq == disk.productSeq
      ensures branches == disk.branches && branchSeq == disk.branchSeq
      ensures settings == SeededSettings(disk.settings) && files == disk.files
    {
      products := disk.products;
      productSeq := disk.productSeq;
      branches := disk.branches;
      branchSeq := disk.branchSeq;
      settings := SeededSettings(disk.settings);
      files := disk.files;
      issuedProducts := IdSet(disk.products);
      issuedBranches := IdSet(disk.branches);
    }

    // -------------------------------------------------------------------------
    // Products
    // -------------------------------------------------------------------------

    /** `GET /api/products`: every row, newest first, without `created_at`. */
    method ListProducts() returns (r: Response)
      ensures r.status == 200 && r.payload.ProductList?
      ensures r == SendJson(200, ProductList(ListDescending(products)))
    {
      r := SendJson(200, ProductList(ListDescending(products)));
    }

    /** `POST /api/products`: one new row with the next id; the reply echoes it. */
    method CreateProduct(body: Json, now: string) returns (r: Response)
      requires Valid()
      modifies this`products, this`productSeq, this`issuedProducts
      ensures Valid()
      ensures productSeq == old(productSeq) + 1
      ensures products == old(products) + [Row(productSeq, ProductOf(body), now)]
      ensures productSeq !in old(issuedProducts) && issuedProducts == old(issuedProducts) + {productSeq}
      ensures forall id | id in old(issuedProducts) :: id < productSeq
      ensures r == SendJson(201, ProductBody(productSeq, ProductOf(body)))
    {
      var fields := ProductOf(body);
      products := Insert(products, productSeq, fields, now);
      productSeq := productSeq + 1;
      issuedProducts := issuedProducts + {productSeq};
      r := SendJson(201, ProductBody(productSeq, fields));
    }

    /** `PUT /api/products/<id>`: overwrite every text column of that row, or 404 if no row matched. */
    method UpdateProduct(id: nat, body: Json) returns (r: Response)
      requires Valid()
      modifies this`products
      ensures Valid()
      ensures id in IdSet(old(products)) ==>
        products == Update(old(products), id, ProductOf(body)) && r == SendJson(200, ProductBody(id, ProductOf(body)))
      ensures id !in IdSet(old(products)) ==> products == old(products) && r == JsonNotFound
    {
      var fields := ProductOf(body);
      var changes := |Matching(products, id)|;
      MatchingCount(products, id);
      UpdateKeepsWellFormed(products, productSeq, id, fields);
      if id !in IdSet(products) {
        UpdateAbsent(products, id, fields);
      }
      products := Update(products, id, fields);
      if changes == 0 {
        r := JsonNotFound;
      } else {
        r := SendJson(200, ProductBody(id, fields));
      }
    }

    /** `DELETE /api/products/<id>`: remove that row, or 404 if there was none. */
    method DeleteProduct(id: nat) returns (r: Response)
      requires Valid()
      modifies this`products
      ensures Valid()
      ensures products == Delete(old(products), id)
      ensures IdSet(products) == IdSet(old(products)) - {id}
      ensures r == if id in IdSet(old(products)) then SendJson(200, OkTrue) else JsonNotFound
    {
      var changes := |products| - |Delete(products, id)|;
      DeleteRemovesExactlyOne(products, productSeq, id);
      products := Delete(products, id);
      if changes == 0 {
        r := JsonNotFound;
      } else {
        r := SendJson(200, OkTrue);
      }
    }

    // -------------------------------------------------------------------------
    // Branches
    // -------------------------------------------------------------------------

    /** `GET /api/branches`: every row, newest first, without `created_at`. */
    method ListBranches() returns (r: Response)
      ensures r.status == 200 && r.payload.BranchList?
      ensures r == SendJson(200, BranchList(ListDescending(branches)))
    {
      r := SendJson(200, BranchList(ListDescending(branches)));
    }

    /** `POST /api/branches`. */
    method CreateBranch(body: Json, now: string) returns (r: Response)
      requires Valid()
      modifies this`branches, this`branchSeq, this`issuedBranches
      ensures Valid()
      ensures branchSeq == old(branchSeq) + 1
      ensures branches == old(branches) + [Row(branchSeq, BranchOf(body), now)]
      ensures branchSeq !in old(issuedBranches) && issuedBranches == old(issuedBranches) + {branchSeq}
      ensures forall id | id in old(issuedBranches) :: id < branchSeq
      ensures r == SendJson(201, BranchBody(branchSeq, BranchOf(body)))
    {
      var fields := BranchOf(body);
      branches := Insert(branches, branchSeq, fields, now);
      branchSeq := branchSeq + 1;
      issuedBranches := issuedBranches + {branchSeq};
      r := SendJson(201, BranchBody(branchSeq, fields));
    }

    /** `PUT /api/branches/<id>`. */
    method UpdateBranch(id: nat, body: Json) returns (r: Response)
      requires Valid()
      modifies this`branches
      ensures Valid()
      ensures id in IdSet(old(branches)) ==>
        branches == Update(old(branches), id, BranchOf(body)) && r == SendJson(200, BranchBody(id, BranchOf(body)))
      ensures id !in IdSet(old(branches)) ==> branches == old(branches) && r == JsonNotFound
    {
      var fields := BranchOf(body);
      var changes := |Matching(branches, id)|;
      MatchingCount(branches, id);
      UpdateKeepsWellFormed(branches, branchSeq, id, fields);
      if id !in IdSet(branches) {
        UpdateAbsent(branches, id, fields);
      }
      branches := Update(branches, id, fields);
      if changes == 0 {
        r := JsonNotFound;
      } else {
        r := SendJson(200, BranchBody(id, fields));
      }
    }

    /** `DELETE /api/branches/<id>`. */
    method DeleteBranch(id: nat) returns (r: Response)
      requires Valid()
      modifies this`branches
      ensures Valid()
      ensures branches == Delete(old(branches), id)
      ensures IdSet(branches) == IdSet(old(branches)) - {id}
      ensures r == if id in IdSet(old(branches)) then SendJson(200, OkTrue) else JsonNotFound
    {
      var changes := |branches| - |Delete(branches, id)|;
      DeleteRemovesExactlyOne(branches, branchSeq, id);
      branches := Delete(branches, id);
      if changes == 0 {
        r := JsonNotFound;
      } else {
        r := SendJson(200, OkTrue);
      }
    }

    // -------------------------------------------------------------------------
    // Settings
    // -------------------------------------------------------------------------

    /** `GET /api/settings`: the stored blob as it is. */
    method GetSettings() returns (r: Response)
      ensures r == SendJson(200, SettingsBody(settings))
    {
      r := SendJson(200, SettingsBody(settings));
    }

    /** `PUT /api/settings`: the body (or `{}`) replaces the whole blob; nothing is merged. */
    method PutSettings(body: Json) returns (r: Response)
      modifies this`settings
      ensures settings == MembersOf(body)
      ensures forall key | key in old(settings) && key !in MembersOf(body) :: key !in settings
      ensures r == SendJson(200, SettingsBody(MembersOf(body)))
    {
      settings := MembersOf(body);
      r := SendJson(200, SettingsBody(settings));
    }

    // -------------------------------------------------------------------------
    // Uploads and static files
    // -------------------------------------------------------------------------

    /** `POST /api/upload-image`: a written file becomes readable under `./src`. */
    method UploadImage(body: Json, nowMs: nat, rand: string, writeOk: bool) returns (r: Response)
      modifies this`files
      ensures var u := Upload.UploadImage(body, nowMs, rand, writeOk);
        r == u.response && files == old(files) + (if u.written.Some? then {u.written.value.path} else {})
    {
      var u := Upload.UploadImage(body, nowMs, rand, writeOk);
      if u.written.Some? {
        files := files + {u.written.value.path};
      }
      r := u.response;
    }

    /** The static branch: resolve against the readable files and answer. */
    method ServeStatic(pathname: string) returns (r: Response)
      ensures r == StaticResponse(Resolve(pathname, files))
    {
      r := StaticResponse(Resolve(pathname, files));
    }

    // -------------------------------------------------------------------------
    // The request handler
    // -------------------------------------------------------------------------

    /** The routes that only read: the answer depends on the state, which they leave as it is. */
    method Query(route: Route, pathname: string) returns (r: Response)
      requires IsQuery(route)
      ensures QueryEffect(route, pathname, Snapshot(), r)
    {
      match route
      case ListProducts => r := ListProducts();
      case ListBranches => r := ListBranches();
      case GetSettings => r := GetSettings();
      case ApiNotFound => r := JsonNotFound;
      case Static => r := ServeStatic(pathname);
      case _ => r := SendJson(200, OkTrue);
    }

    /** The routes that write the products table; DELETE does not read its body. */
    method ProductWrite(route: Route, req: Request, env: Env) returns (r: Response)
      requires Valid() && IsProductWrite(route)
      modifies this`products, this`productSeq, this`issuedProducts
      ensures Valid()
      ensures ProductEffect(route, ParseBody(Concat(req.chunks), env.parse), env.now, old(Snapshot()), Snapshot(), r)
    {
      ghost var s0 := Snapshot();
      match route
      case CreateProduct =>
        var body := CollectJson(req.chunks, env.parse);
        r := CreateProduct(body, env.now);
      case UpdateProduct(id) =>
        var body := CollectJson(req.chunks, env.parse);
        r := UpdateProduct(id, body);
      case DeleteProduct(id) =>
        r := DeleteProduct(id);
      assert Snapshot() == s0.(products := products, productSeq := productSeq);
    }

    /** The routes that write the branches table. */
    method BranchWrite(route: Route, req: Request, env: Env) returns (r: Response)
      requires Valid() && IsBranchWrite(route)
      modifies this`branches, this`branchSeq, this`issuedBranches
      ensures Valid()
      ensures BranchEffect(route, ParseBody(Concat(req.chunks), env.parse), env.now, old(Snapshot()), Snapshot(), r)
    {
      ghost var s0 := Snapshot();
      match route
      case CreateBranch =>
        var body := CollectJson(req.chunks, env.parse);
        r := CreateBranch(body, env.now);
      case UpdateBranch(id) =>
        var body := CollectJson(req.chunks, env.parse);
        r := UpdateBranch(id, body);
      case DeleteBranch(id) =>
        r := DeleteBranch(id);
      assert Snapshot() == s0.(branches := branches, branchSeq := branchSeq);
    }

    /** One request, start to finish: route it, then run its handler. */
    method Handle(req: Request, env: Env) returns (r: Response)
      requires Valid()
      modifies this
      ensures Valid()
      ensures Effect(req, env, old(Snapshot()), Snapshot(), r)
    {
      var route := Dispatch(req.verb, req.pathname);
      if IsProductWrite(route) {
        r := ProductWrite(route, req, env);
      } else if IsBranchWrite(route) {
        r := BranchWrite(route, req, env);
      } else if route.PutSettings? {
        var body := CollectJson(req.chunks, env.parse);
        r := PutSettings(body);
      } else if route.UploadImage? {
        var body := CollectJson(req.chunks, env.parse);
        r := UploadImage(body, env.clockMs, env.rand, env.writeOk);
      } else {
        r := Query(route, req.pathname);
      }
    }

    // -------------------------------------------------------------------------
    // Properties that span several requests
    // -------------------------------------------------------------------------

    /** Deleting an id twice: the second answer is 404 and changes nothing. */
    method DeleteProductTwice(id: nat) returns (first: Response, second: Response)
      requires Valid()
      modifies this`products
      ensures Valid()
      ensures first == if id in IdSet(old(products)) then SendJson(200, OkTrue) else JsonNotFound
      ensures second == JsonNotFound
      ensures products == Delete(old(products), id)
    {
      first := DeleteProduct(id);
      DeleteTwice(old(products), productSeq, id);
      second := DeleteProduct(id);
    }

    /** Create, delete it, create again: the second id is new and larger than the first. */
    method CreateDeleteCreate(a: Json, b: Json, now: string) returns (first: Response, second: Response)
      requires Valid()
      modifies this`products, this`productSeq, this`issuedProducts
      ensures Valid()
      ensures first.payload.ProductBody? && second.payload.ProductBody?
      ensures first.payload.id < second.payload.id
      ensures second.payload.id !in IdSet(old(products)) && first.payload.id !in IdSet(products) - {second.payload.id}
    {
      first := CreateProduct(a, now);
      var gone := DeleteProduct(productSeq);
      second := CreateProduct(b, now);
    }

    /** A stored settings blob is what the next GET returns. */
    method PutThenGetSettings(body: Json) returns (put: Response, get: Response)
      modifies this`settings
      ensures get == SendJson(200, SettingsBody(MembersOf(body))) && get == put
    {
      put := PutSettings(body);
      get := GetSettings();
    }

    /** A successful upload is then served from its URL with an image content type. */
    method UploadThenFetch(body: Json, nowMs: nat, rand: string) returns (upload: Response, fetch: Response)
      requires IsRandomSuffix(rand)
      requires body.Object? && MatchDataUrl(Member(body, "dataUrl")).Some?
      modifies this`files
      ensures upload.status == 201 && upload.payload.UploadedUrl?
      ensures fetch.status == 200 && fetch.payload == FileContents("./src" + upload.payload.url)
      ensures fetch.headers == map["Content-Type" := "image/png"] || fetch.headers == map["Content-Type" := "image/jpg"]
    {
      upload := UploadImage(body, nowMs, rand, true);
      var d := MatchDataUrl(Member(body, "dataUrl")).value;
      WrittenPathIsServedPath(FileName(nowMs, rand, Extension(d.subtype)));
      UploadedFileIsServed(nowMs, rand, d.subtype, files);
      ExtensionOfSubtype(d.subtype);
      fetch := ServeStatic(upload.payload.url);
    }
  }

  /** The URL of an uploaded file, spelled as the static server splits it. */
  lemma UploadedUrlParts(nowMs: nat, rand: string, ext: string)
    ensures var stem, url := "img_" + NatToString(nowMs) + "_" + rand, ImagesUrl + FileName(nowMs, rand, ext);
      && url != "/" && url != "/admin"
      && FilePath(url) == "./src/uploads/images" + "/" + stem + "." + ext
  {
    var name := FileName(nowMs, rand, ext);
    var url := ImagesUrl + name;
    assert url[1] == 'u';
    WrittenPathIsServedPath(name);
    assert ImagesDir == "./src/uploads/images" + "/";
  }

  /** The two extensions an upload can have, and their content types. */
  lemma ImageMime(ext: string)
    requires ext == "png" || ext == "jpg"
    ensures MimeFor("." + ext) == (if ext == "png" then "image/png" else "image/jpg")
  {
    if ext == "png" {
      assert "." + ext == ".png";
      PngMime();
    } else {
      assert "." + ext == ".jpg";
      JpgMime();
    }
  }

  /** The URL of an uploaded image resolves to the file written for it, served as an image. */
  lemma UploadedFileIsServed(nowMs: nat, rand: string, sub: string, files: set<string>)
    requires IsRandomSuffix(rand) && IsImageSubtype(sub)
    requires ImagesDir + FileName(nowMs, rand, Extension(sub)) in files
    ensures var url := ImagesUrl + FileName(nowMs, rand, Extension(sub));
      && Resolve(url, files) == Serve("./src" + url, MimeFor("." + Extension(sub)))
      && MimeFor("." + Extension(sub)) == (if Lower(sub) == "png" then "image/png" else "image/jpg")
  {
    var ext := Extension(sub);
    ExtensionOfSubtype(sub);
    assert NoneIs(ext, '.') && NoneIs(ext, '/');
    FileNameShape(nowMs, rand, ext);
    var stem := "img_" + NatToString(nowMs) + "_" + rand;
    var url := ImagesUrl + FileName(nowMs, rand, ext);
    WrittenPathIsServedPath(FileName(nowMs, rand, ext));
    UploadedUrlParts(nowMs, rand, ext);
    ExtNameOfFile("./src/uploads/images", stem, ext);
    ImageMime(ext);
  }
}
