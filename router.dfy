/**
 * The request dispatch of the server: a chain of tests on the method and the
 * URL's pathname, tried in order, the first match deciding.
 */
module Router {
  import opened Text

  datatype Route =
    | Preflight
    | Health
    | ListProducts | CreateProduct | UpdateProduct(id: nat) | DeleteProduct(id: nat)
    | ListBranches | CreateBranch | UpdateBranch(id: nat) | DeleteBranch(id: nat)
    | GetSettings | PutSettings
    | UploadImage
    | ApiNotFound
    | Static

  const ApiPrefix := "/api/"
  const ProductsPath := "/api/products"
  const BranchesPath := "/api/branches"
  const ProductsPrefix := "/api/products/"
  const BranchesPrefix := "/api/branches/"

  /** `req.method || 'GET'`. */
  function EffectiveMethod(verb: string): (m: string)
    ensures verb != "" ==> m == verb
    ensures verb == "" ==> m == "GET"
  {
    if verb == "" then "GET" else verb
  }

  /** `/^<prefix>\d+$/.test(p)`: the prefix followed by one or more decimal digits and nothing else. */
  predicate IsIdPath(prefix: string, p: string) {
    StartsWith(p, prefix) && IsDigits(p[|prefix|..])
  }

  /** `Number(p.split('/').pop())` on a path that `IsIdPath` accepted: the number its digits denote. */
  function PathId(prefix: string, p: string): (id: nat)
    requires EndsWith(prefix, "/") && IsIdPath(prefix, p)
    ensures AllDigits(p[|prefix|..]) && id == DigitsValue(p[|prefix|..])
  {
    var digits := p[|prefix|..];
    var dir := prefix[..|prefix| - 1];
    assert p == dir + "/" + digits by {
      assert p == p[..|prefix|] + digits;
      assert p[..|prefix|] == prefix == dir + "/";
    }
    assert NoneIs(digits, '/') by {
      forall k | 0 <= k < |digits| ensures digits[k] != '/' {
        assert IsDigit(digits[k]);
      }
    }
    LastSegmentAfterSlash(dir, digits);
    DigitsValue(LastSegment(p))
  }

  /** The method and pathname pairs that have an API handler. */
  predicate HasHandler(m: string, p: string) {
    || (p == "/api/health" && m == "GET")
    || (p == ProductsPath && (m == "GET" || m == "POST"))
    || (IsIdPath(ProductsPrefix, p) && (m == "PUT" || m == "DELETE"))
    || (p == BranchesPath && (m == "GET" || m == "POST"))
    || (IsIdPath(BranchesPrefix, p) && (m == "PUT" || m == "DELETE"))
    || (p == "/api/settings" && (m == "GET" || m == "PUT"))
    || (p == "/api/upload-image" && m == "POST")
  }

  /** The handler the server runs for a request. */
  function Dispatch(verb: string, pathname: string): (r: Route)
    // OPTIONS is answered before the path is looked at.
    ensures EffectiveMethod(verb) == "OPTIONS" ==> r == Preflight
    // Paths outside /api/ are static files; the rest never are.
    ensures r == Static <==> EffectiveMethod(verb) != "OPTIONS" && !StartsWith(pathname, ApiPrefix)
    // Only /api/products/<digits> and /api/branches/<digits> reach update and delete, keyed by those digits.
    ensures r.UpdateProduct? <==> EffectiveMethod(verb) == "PUT" && IsIdPath(ProductsPrefix, pathname)
    ensures r.DeleteProduct? <==> EffectiveMethod(verb) == "DELETE" && IsIdPath(ProductsPrefix, pathname)
    ensures r.UpdateBranch? <==> EffectiveMethod(verb) == "PUT" && IsIdPath(BranchesPrefix, pathname)
    ensures r.DeleteBranch? <==> EffectiveMethod(verb) == "DELETE" && IsIdPath(BranchesPrefix, pathname)
    ensures (r.UpdateProduct? || r.DeleteProduct?) ==> r.id == DigitsValue(pathname[|ProductsPrefix|..])
    ensures (r.UpdateBranch? || r.DeleteBranch?) ==> r.id == DigitsValue(pathname[|BranchesPrefix|..])
    // The literal API paths are matched exactly, each with its own methods.
    ensures r == Health <==> EffectiveMethod(verb) == "GET" && pathname == "/api/health"
    ensures r == ListProducts <==> EffectiveMethod(verb) == "GET" && pathname == ProductsPath
    ensures r == CreateProduct <==> EffectiveMethod(verb) == "POST" && pathname == ProductsPath
    ensures r == ListBranches <==> EffectiveMethod(verb) == "GET" && pathname == BranchesPath
    ensures r == CreateBranch <==> EffectiveMethod(verb) == "POST" && pathname == BranchesPath
    ensures r == GetSettings <==> EffectiveMethod(verb) == "GET" && pathname == "/api/settings"
    ensures r == PutSettings <==> EffectiveMethod(verb) == "PUT" && pathname == "/api/settings"
    ensures r == UploadImage <==> EffectiveMethod(verb) == "POST" && pathname == "/api/upload-image"
    // Every /api/ request without a handler is the generic JSON 404.
    ensures r == ApiNotFound <==>
      EffectiveMethod(verb) != "OPTIONS" && StartsWith(pathname, ApiPrefix) && !HasHandler(EffectiveMethod(verb), pathname)
  {
    var m := EffectiveMethod(verb);
    if m == "OPTIONS" then Preflight
    else if !StartsWith(pathname, ApiPrefix) then Static
    else if pathname == "/api/health" && m == "GET" then Health
    else if pathname == ProductsPath && m == "GET" then ListProducts
    else if pathname == ProductsPath && m == "POST" then CreateProduct
    else if IsIdPath(ProductsPrefix, pathname) && m == "PUT" then UpdateProduct(PathId(ProductsPrefix, pathname))
    else if IsIdPath(ProductsPrefix, pathname) && m == "DELETE" then DeleteProduct(PathId(ProductsPrefix, pathname))
    else if pathname == BranchesPath && m == "GET" then ListBranches
    else if pathname == BranchesPath && m == "POST" then CreateBranch
    else if IsIdPath(BranchesPrefix, pathname) && m == "PUT" then UpdateBranch(PathId(BranchesPrefix, pathname))
    else if IsIdPath(BranchesPrefix, pathname) && m == "DELETE" then DeleteBranch(PathId(BranchesPrefix, pathname))
    else if pathname == "/api/settings" && m == "GET" then GetSettings
    else if pathname == "/api/settings" && m == "PUT" then PutSettings
    else if pathname == "/api/upload-image" && m == "POST" then UploadImage
    else ApiNotFound
  }

  /** The path a client builds from an id it rendered (`/api/products/${id}`) reaches that id. */
  lemma RenderedIdRoutes(n: nat)
    ensures Dispatch("PUT", ProductsPrefix + NatToString(n)) == UpdateProduct(n)
    ensures Dispatch("DELETE", ProductsPrefix + NatToString(n)) == DeleteProduct(n)
    ensures Dispatch("PUT", BranchesPrefix + NatToString(n)) == UpdateBranch(n)
    ensures Dispatch("DELETE", BranchesPrefix + NatToString(n)) == DeleteBranch(n)
  {
    NatToStringRoundTrip(n);
    assert (ProductsPrefix + NatToString(n))[|ProductsPrefix|..] == NatToString(n);
    assert (BranchesPrefix + NatToString(n))[|BranchesPrefix|..] == NatToString(n);
  }

  /** Leading zeros name the same row: `Number("007")` is 7. */
  lemma LeadingZerosRoute()
    ensures Dispatch("DELETE", "/api/products/007") == DeleteProduct(7)
  {
    var digits := "/api/products/007"[|ProductsPrefix|..];
    assert digits == "007";
    assert digits[..2] == "00" && "00"[..1] == "0" && "0"[..0] == "";
    assert DigitsValue("00") == 0;
  }

  /** A suffix that is not all digits is not an id path. */
  lemma NonDigitIsNotIdPath(prefix: string, suffix: string, k: nat)
    requires k < |suffix| && !IsDigit(suffix[k])
    ensures !IsIdPath(prefix, prefix + suffix)
  {
    assert (prefix + suffix)[|prefix|..] == suffix;
  }

  /** Paths that look like id paths but are not: no digits, a trailing slash, a sign, NaN. */
  lemma MalformedIdPathsAreNotFound()
    ensures Dispatch("PUT", "/api/products/abc") == ApiNotFound
    ensures Dispatch("DELETE", "/api/products/") == ApiNotFound
    ensures Dispatch("DELETE", "/api/branches/12/") == ApiNotFound
    ensures Dispatch("PUT", "/api/branches/-3") == ApiNotFound
    ensures Dispatch("PUT", "/api/products/NaN") == ApiNotFound
  {
    LettersAreNotAnId();
    TrailingSlashIsNotAnId();
    SignIsNotAnId();
    IdLikeNotFound("PUT", "/api/products/abc");
    IdLikeNotFound("DELETE", "/api/products/");
    IdLikeNotFound("DELETE", "/api/branches/12/");
    IdLikeNotFound("PUT", "/api/branches/-3");
    IdLikeNotFound("PUT", "/api/products/NaN");
  }

  /** An update or delete of a path under `/api/` that is no id path and no literal path has no handler. */
  lemma IdLikeNotFound(verb: string, p: string)
    requires verb == "PUT" || verb == "DELETE"
    requires StartsWith(p, ApiPrefix) && p != "/api/settings"
    requires !IsIdPath(ProductsPrefix, p) && !IsIdPath(BranchesPrefix, p)
    ensures Dispatch(verb, p) == ApiNotFound
  {
  }

  lemma LettersAreNotAnId()
    ensures !IsIdPath(ProductsPrefix, "/api/products/abc") && !IsIdPath(ProductsPrefix, "/api/products/NaN")
  {
    NonDigitIsNotIdPath(ProductsPrefix, "abc", 0);
    assert ProductsPrefix + "abc" == "/api/products/abc";
    NonDigitIsNotIdPath(ProductsPrefix, "NaN", 0);
    assert ProductsPrefix + "NaN" == "/api/products/NaN";
  }

  lemma TrailingSlashIsNotAnId()
    ensures !IsIdPath(ProductsPrefix, "/api/products/") && !IsIdPath(BranchesPrefix, "/api/branches/12/")
  {
    assert "/api/products/"[|ProductsPrefix|..] == "";
    NonDigitIsNotIdPath(BranchesPrefix, "12/", 2);
    assert BranchesPrefix + "12/" == "/api/branches/12/";
  }

  lemma SignIsNotAnId()
    ensures !IsIdPath(BranchesPrefix, "/api/branches/-3")
  {
    NonDigitIsNotIdPath(BranchesPrefix, "-3", 0);
    assert BranchesPrefix + "-3" == "/api/branches/-3";
  }

  /** A request without a method is routed as GET. */
  lemma MissingMethodIsGet(pathname: string)
    ensures Dispatch("", pathname) == Dispatch("GET", pathname)
  {
  }

  /** The literal endpoints take only their own methods; others get the JSON 404. */
  lemma WrongMethodIsNotFound()
    ensures Dispatch("POST", "/api/health") == ApiNotFound
    ensures Dispatch("PUT", ProductsPath) == ApiNotFound
    ensures Dispatch("GET", "/api/products/5") == ApiNotFound
    ensures Dispatch("DELETE", "/api/settings") == ApiNotFound
    ensures Dispatch("GET", "/api/upload-image") == ApiNotFound
    ensures Dispatch("GET", "/api") == Static
  {
    assert "/api/products/5"[|ProductsPrefix|..] == "5";
  }
}
