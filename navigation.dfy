/**
 * The bottom navigation bars: the current page is the last `/`-separated segment
 * of the pathname, or a default page when that segment is empty; a link is
 * marked `active` iff its href equals the current page.
 */
module Navigation {
  import opened Text
  import opened Lists

  /** `pathname.split('/').pop() || fallback`. */
  function CurrentPage(pathname: string, fallback: string): (page: string)
    ensures LastSegment(pathname) != "" ==> page == LastSegment(pathname)
    ensures LastSegment(pathname) == "" ==> page == fallback
    ensures page != fallback ==> EndsWith(pathname, page) && NoneIs(page, '/') && page != ""
  {
    var segment := LastSegment(pathname);
    if segment == "" then fallback else segment
  }

  /** The `active` class of each link, in link order. */
  function ActiveFlags(hrefs: seq<string>, current: string): (flags: seq<bool>)
    ensures |flags| == |hrefs|
    ensures forall i :: 0 <= i < |hrefs| ==> (flags[i] <==> hrefs[i] == current)
  {
    Map(hrefs, (h: string) => h == current)
  }

  predicate Distinct(hrefs: seq<string>) {
    forall i, j :: 0 <= i < j < |hrefs| ==> hrefs[i] != hrefs[j]
  }

  /**
   * With distinct hrefs, exactly the link whose href is the current page is active:
   * one link when the page is among them, none otherwise.
   */
  lemma AtMostOneActive(hrefs: seq<string>, current: string)
    requires Distinct(hrefs)
    ensures forall i, j :: 0 <= i < j < |hrefs| ==> !(ActiveFlags(hrefs, current)[i] && ActiveFlags(hrefs, current)[j])
    ensures (exists i :: 0 <= i < |hrefs| && ActiveFlags(hrefs, current)[i]) <==> current in hrefs
  {
    var flags := ActiveFlags(hrefs, current);
    if current in hrefs {
      var i :| 0 <= i < |hrefs| && hrefs[i] == current;
      assert flags[i];
    }
  }

  /** A path a trailing slash ends, or the empty path, is the default page. */
  lemma DirectoryIsDefault(dir: string, fallback: string)
    ensures CurrentPage(dir + "/", fallback) == fallback
    ensures CurrentPage("", fallback) == fallback
  {
    var p := dir + "/";
    assert p[|p| - 1] == '/';
  }

  /** `<dir>/<page>` is `page` when page has no slash and is not empty. */
  lemma PageOfFile(dir: string, page: string)
    requires page != "" && NoneIs(page, '/')
    ensures CurrentPage(dir + "/" + page, "") == page
    ensures forall fallback :: CurrentPage(dir + "/" + page, fallback) == page
  {
    LastSegmentAfterSlash(dir, page);
  }
}
