/**
 * The two facts about the browser's API wrapper that the admin forms depend on:
 * the path an update is sent to is built from the id with a template literal, and
 * a request whose response is not 2xx throws, so an upload's URL is only seen
 * when the server answered 201.
 */
module ApiClient {
  import opened Wrappers
  import opened Text
  import opened Router
  import opened Http
  import opened Upload

  /** `${n}` for the value `parseInt` produced: its decimal digits, a sign, or `NaN`. */
  function IdText(id: Option<int>): (s: string)
    ensures id.Some? && id.value >= 0 ==> s == NatToString(id.value)
    ensures id.None? || id.value < 0 ==> s != "" && !IsDigit(s[0])
  {
    match id
    case None => "NaN"
    case Some(n) => if n >= 0 then NatToString(n) else "-" + NatToString(-n)
  }

  /** `/api/products/${p.id}`. */
  function ProductPath(id: Option<int>): string {
    ProductsPrefix + IdText(id)
  }

  /** `/api/branches/${b.id}`. */
  function BranchPath(id: Option<int>): string {
    BranchesPrefix + IdText(id)
  }

  /** A path under `/api/products/` or `/api/branches/` that is not an id path has no handler for PUT. */
  lemma NoPutHandler(prefix: string, suffix: string)
    requires prefix == ProductsPrefix || prefix == BranchesPrefix
    requires !IsIdPath(prefix, prefix + suffix) && suffix != ""
    ensures Dispatch("PUT", prefix + suffix) == ApiNotFound
  {
    var p := prefix + suffix;
    assert p[..|prefix|] == prefix;
    assert StartsWith(p, ApiPrefix) by {
      assert p[..5] == prefix[..5];
    }
    assert p[5] == prefix[5];
    assert p != "/api/health" && p != "/api/settings" && p != "/api/upload-image" by {
      assert "/api/health"[5] == 'h' && "/api/settings"[5] == 's' && "/api/upload-image"[5] == 'u';
    }
    assert |p| > |ProductsPath|;
    if prefix == ProductsPrefix {
      assert !StartsWith(p, BranchesPrefix) by { assert BranchesPrefix[5] == 'b'; }
    } else {
      assert !StartsWith(p, ProductsPrefix) by { assert ProductsPrefix[5] == 'p'; }
    }
  }

  /**
   * An update reaches the row whose id the form held only when `parseInt` gave a
   * non-negative number; `NaN` and a negative id get the generic 404.
   */
  lemma UpdatePathRoutes(id: Option<int>)
    ensures Dispatch("PUT", ProductPath(id)) ==
      if id.Some? && id.value >= 0 then UpdateProduct(id.value) else ApiNotFound
    ensures Dispatch("PUT", BranchPath(id)) ==
      if id.Some? && id.value >= 0 then UpdateBranch(id.value) else ApiNotFound
  {
    if id.Some? && id.value >= 0 {
      RenderedIdRoutes(id.value);
    } else {
      NonDigitIsNotIdPath(ProductsPrefix, IdText(id), 0);
      NonDigitIsNotIdPath(BranchesPrefix, IdText(id), 0);
      NoPutHandler(ProductsPrefix, IdText(id));
      NoPutHandler(BranchesPrefix, IdText(id));
    }
  }

  /** `uploadImageDataURL`: the `url` of a 201 answer; any other status throws (None). */
  function UploadedUrl(u: UploadOutcome): (url: Option<string>)
    ensures url.Some? <==> u.response.status == 201 && u.response.payload.UploadedUrl?
    ensures url.Some? ==> url.value == u.response.payload.url
  {
    if u.response.status == 201 && u.response.payload.UploadedUrl? then Some(u.response.payload.url) else None
  }
}
