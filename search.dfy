/**
 * The multi-term search the storefront and the admin pages share: the query is
 * normalised (trimmed, ASCII lower-cased), an empty query shows every item, and
 * otherwise an item is kept iff each whitespace-separated term is a substring of
 * one of its lower-cased searchable fields.
 */
module Search {
  import opened Wrappers
  import opened Text
  import opened Lists

  /** `(v || '')` on a value that is a string or missing. */
  function OrEmpty(v: Option<string>): (s: string)
    ensures v.Some? ==> s == v.value
    ensures v.None? ==> s == ""
  {
    v.GetOr("")
  }

  /** `terms.every(t => fields.some(f => f.includes(t)))`. */
  predicate EveryTermIn(terms: seq<string>, fields: seq<string>) {
    forall j :: 0 <= j < |terms| ==> exists k :: 0 <= k < |fields| && Contains(fields[k], terms[j])
  }

  /** The test an item passes: every term of `q.split(/\s+/)` is in one of its fields. */
  function Matches<T>(q: string, fieldsOf: T -> seq<string>): T -> bool {
    (x: T) => EveryTermIn(SplitOnSpaces(q), fieldsOf(x))
  }

  /**
   * The items a normalised query selects: all of them for "", otherwise those whose
   * fields hold every term of `q.split(/\s+/)`, in their order.
   */
  function Select<T(==,!new)>(q: string, items: seq<T>, fieldsOf: T -> seq<string>): (r: seq<T>)
    ensures q == "" ==> r == items
    ensures q != "" ==> forall x :: x in r <==> x in items && EveryTermIn(SplitOnSpaces(q), fieldsOf(x))
    ensures IsSubsequence(r, items) && |r| <= |items|
  {
    if q == "" then
      SubsequenceOfSelf(items);
      items
    else Filter(items, Matches(q, fieldsOf))
  }

  /** The selection adds nothing and duplicates nothing: each item occurs as often as in the list, or not at all. */
  lemma SelectCounts<T(!new)>(q: string, items: seq<T>, fieldsOf: T -> seq<string>)
    ensures forall x ::
      multiset(Select(q, items, fieldsOf))[x] ==
        (if q == "" || EveryTermIn(SplitOnSpaces(q), fieldsOf(x)) then multiset(items)[x] else 0)
  {
    if q != "" {
      FilterMultiplicity(items, Matches(q, fieldsOf));
    }
  }

  /**
   * Converting the items before or after the search gives the same list, when the
   * conversion keeps the searched fields.
   */
  lemma SelectMap<A(!new), B(!new)>(q: string, items: seq<A>, f: A -> B, fieldsA: A -> seq<string>, fieldsB: B -> seq<string>)
    requires forall x :: fieldsA(x) == fieldsB(f(x))
    ensures Map(Select(q, items, fieldsA), f) == Select(q, Map(items, f), fieldsB)
  {
    if q != "" {
      FilterMap(items, f, Matches(q, fieldsB), Matches(q, fieldsA));
    }
  }

  /** `input.trim().toLowerCase()`. */
  function Normalize(input: string): (q: string)
    ensures q == [] || (!IsSpace(q[0]) && !IsSpace(q[|q| - 1]))
  {
    LowerTrimEdges(input);
    Lower(Trim(input))
  }

  /** `input.toLowerCase().trim()`, the storefront's order, gives the same query. */
  lemma NormalizeEitherOrder(input: string)
    ensures Trim(Lower(input)) == Normalize(input)
  {
    TrimLowerCommute(input);
  }

  /** A normalised, non-empty query splits into terms none of which is empty. */
  lemma NormalizedTermsAreNonEmpty(input: string)
    requires Normalize(input) != ""
    ensures forall j :: 0 <= j < |SplitOnSpaces(Normalize(input))| ==> SplitOnSpaces(Normalize(input))[j] != ""
  {
    SplitTrimmedHasNoEmptyTerm(Normalize(input));
  }
}
