/**
 * The public storefront script: the product search box, the featured products on
 * the home page, the floating WhatsApp link and the bottom navigation bar.
 */
module Storefront {
  import opened Wrappers
  import opened Text
  import opened Lists
  import opened Tables
  import opened Records
  import opened Search
  import opened Navigation
  import AdminProducts

  /** A product as the listing endpoint returns it. */
  type Product = Record<ProductFields>

  /** `product.name.toLowerCase()` and `product.models.toLowerCase()`. */
  function StoreFields(p: Product): seq<string> {
    [Lower(p.fields.name), Lower(p.fields.models)]
  }

  /**
   * `performSearch`: the input is lower-cased then trimmed; an empty term shows every
   * product, otherwise a product is kept iff every term is in its lower-cased name or
   * models, in list order.
   */
  function PerformSearch(input: string, products: seq<Product>): (r: seq<Product>)
    ensures Trim(Lower(input)) == "" ==> r == products
    ensures Trim(Lower(input)) != "" ==> forall p :: p in r <==>
      p in products && EveryTermIn(SplitOnSpaces(Trim(Lower(input))), [Lower(p.fields.name), Lower(p.fields.models)])
    ensures IsSubsequence(r, products) && |r| <= |products|
  {
    Select(Trim(Lower(input)), products, StoreFields)
  }

  /** The search keeps each product as many times as it is listed, or drops it. */
  lemma PerformSearchCounts(input: string, products: seq<Product>)
    ensures forall p ::
      multiset(PerformSearch(input, products))[p] ==
        (if Trim(Lower(input)) == "" || EveryTermIn(SplitOnSpaces(Trim(Lower(input))), StoreFields(p))
         then multiset(products)[p] else 0)
  {
    SelectCounts(Trim(Lower(input)), products, StoreFields);
  }

  /** The product as the admin page holds it: every field present. */
  function AsItem(p: Product): AdminProducts.ProductItem {
    AdminProducts.ProductItem(p.id, Some(p.fields.name), Some(p.fields.models), Some(p.fields.image))
  }

  /**
   * The storefront lower-cases before trimming and the admin page trims first, yet on
   * the same products and input both searches keep the same products in the same order.
   */
  lemma StorefrontAgreesWithAdmin(input: string, products: seq<Product>)
    ensures Map(PerformSearch(input, products), AsItem) == AdminProducts.SearchProducts(input, Map(products, AsItem))
  {
    NormalizeEitherOrder(input);
    forall p: Product ensures StoreFields(p) == AdminProducts.SearchedFields(AsItem(p)) {
    }
    SelectMap(Normalize(input), products, AsItem, StoreFields, AdminProducts.SearchedFields);
  }

  // ---------------------------------------------------------------------------
  // Featured products
  // ---------------------------------------------------------------------------

  /** `(products || []).slice(0, 4)`: a missing listing shows nothing. */
  function Featured(products: Option<seq<Product>>): (r: seq<Product>)
    ensures products.None? ==> r == []
    ensures products.Some? ==> |r| == (if |products.value| < 4 then |products.value| else 4)
    ensures products.Some? ==> r == products.value[..|r|]
  {
    Take(products.GetOr([]), 4)
  }

  /**
   * The listing is newest first, so the featured products are the newest ones: each
   * has a larger id than every product left out.
   */
  lemma FeaturedAreNewest(t: seq<Row<ProductFields>>)
    requires Ascending(t)
    ensures var all := ListDescending(t);
      forall i, j :: 0 <= i < |Featured(Some(all))| <= j < |all| ==> all[i].id > all[j].id
  {
  }

  // ---------------------------------------------------------------------------
  // WhatsApp link
  // ---------------------------------------------------------------------------

  const WhatsAppPrefix := "https://wa.me/967"

  /**
   * The floating link's href after the settings load: the configured number behind
   * the country prefix when the settings hold a non-empty `whatsappNumber`, the
   * page's own href otherwise.
   */
  function WhatsAppHref(settings: Option<Settings>, current: string): (href: string)
    ensures (settings.Some? && "whatsappNumber" in settings.value && settings.value["whatsappNumber"] != "") ==>
      href == WhatsAppPrefix + settings.value["whatsappNumber"]
    ensures !(settings.Some? && "whatsappNumber" in settings.value && settings.value["whatsappNumber"] != "") ==>
      href == current
  {
    if settings.Some? && "whatsappNumber" in settings.value && settings.value["whatsappNumber"] != "" then
      WhatsAppPrefix + settings.value["whatsappNumber"]
    else current
  }

  /** A store whose settings were just seeded keeps the link the page was written with. */
  lemma SeededStoreKeepsLink(current: string)
    ensures WhatsAppHref(Some(SeededSettings(None)), current) == current
  {
  }

  /** Saving a non-empty number makes the link point at it; saving "" leaves the page's link. */
  lemma SavedNumberIsUsed(settings: Settings, number: string, current: string)
    ensures number != "" ==>
      WhatsAppHref(Some(settings["whatsappNumber" := number]), current) == WhatsAppPrefix + number
    ensures WhatsAppHref(Some(settings["whatsappNumber" := ""]), current) == current
  {
  }

  // ---------------------------------------------------------------------------
  // Bottom navigation
  // ---------------------------------------------------------------------------

  const StoreLinks: seq<string> := ["index.html", "catalog.html", "branches.html", "about.html", "contact.html"]

  /** The `active` flag of each bottom-nav link; the home page is the default. */
  function StoreNav(pathname: string): (flags: seq<bool>)
    ensures |flags| == |StoreLinks|
    ensures forall i :: 0 <= i < |StoreLinks| ==> (flags[i] <==> StoreLinks[i] == CurrentPage(pathname, "index.html"))
  {
    ActiveFlags(StoreLinks, CurrentPage(pathname, "index.html"))
  }

  lemma StoreLinksAreDistinct()
    ensures Distinct(StoreLinks)
  {
    var l := StoreLinks;
    assert l[0][0] == 'i' && l[1][0] == 'c' && l[2][0] == 'b' && l[3][0] == 'a' && l[4][0] == 'c';
    assert l[1][1] == 'a' && l[4][1] == 'o';
  }

  /** Exactly the link of the current page is active, or none when the page has no link. */
  lemma StoreNavMarksOnePage(pathname: string)
    ensures forall i, j :: 0 <= i < j < |StoreLinks| ==> !(StoreNav(pathname)[i] && StoreNav(pathname)[j])
    ensures (exists i :: 0 <= i < |StoreLinks| && StoreNav(pathname)[i]) <==> CurrentPage(pathname, "index.html") in StoreLinks
  {
    var current := CurrentPage(pathname, "index.html");
    assert StoreNav(pathname) == ActiveFlags(StoreLinks, current);
    StoreLinksAreDistinct();
    AtMostOneActive(StoreLinks, current);
  }

  /** At the site root (a path ending in `/`) the home link is the active one. */
  lemma RootIsHome(dir: string)
    ensures StoreNav(dir + "/") == [true, false, false, false, false]
  {
    DirectoryIsDefault(dir, "index.html");
    StoreLinksAreDistinct();
  }

  /** A page of the site, under any directory, activates its own link. */
  lemma PageIsActive(dir: string, i: nat)
    requires i < |StoreLinks|
    ensures StoreNav(dir + "/" + StoreLinks[i])[i]
    ensures forall j :: 0 <= j < |StoreLinks| && j != i ==> !StoreNav(dir + "/" + StoreLinks[i])[j]
  {
    StoreLinksAreDistinct();
    var p := StoreLinks[i];
    assert NoneIs(p, '/') by {
      assert NoneIs(StoreLinks[0], '/') && NoneIs(StoreLinks[1], '/') && NoneIs(StoreLinks[2], '/')
        && NoneIs(StoreLinks[3], '/') && NoneIs(StoreLinks[4], '/');
    }
    PageOfFile(dir, p);
  }
}
