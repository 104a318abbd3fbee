/**
 * Navigation targets. `router.push` is modelled as recording a Route; the
 * URL text of a route is built with an encoder the caller supplies, since
 * `encodeURIComponent` is not part of this model.
 */
module Routes {
  import opened Optional
  import opened Text

  datatype Route = Home | SearchFor(q: string)

  /** The URL of a route, `"/"` or `"/search?q=" + encode(q)`. */
  function Href(r: Route, encode: string -> string): (url: string)
    ensures r.SearchFor? ==> "/search?q=" <= url
  {
    match r
    case Home => "/"
    case SearchFor(q) => "/search?q=" + encode(q)
  }

  /**
   * Where submitting a search form leads: nowhere when the query is empty
   * or white space only, otherwise to the search page for a non-empty query
   * that neither starts nor ends with white space.
   */
  function SearchDestination(query: string): (r: Option<Route>)
    ensures r.None? <==> AllSpace(query)
    ensures r.Some? ==> r.value.SearchFor? && r.value.q != [] && Trimmed(r.value.q)
  {
    TrimEmptyIff(query);
    TrimIsCore(query);
    var t := Trim(query);
    if t != [] then Some(SearchFor(t)) else None
  }

  /** The query of the destination is the submitted text without the white space around it. */
  lemma DestinationIsCore(query: string)
    requires !AllSpace(query)
    ensures IsCoreOf(SearchDestination(query).value.q, query)
  {
    TrimIsCore(query);
  }

  /** The URL a successful submission navigates to: `/search?q=` followed by the encoded trimmed query. */
  lemma SubmittedUrl(query: string, encode: string -> string)
    requires !AllSpace(query)
    ensures SearchDestination(query).Some?
    ensures Href(SearchDestination(query).value, encode) == "/search?q=" + encode(Trim(query))
  {
  }

  /** A query that is already trimmed and non-empty leads to its own search page. */
  lemma DestinationOfTrimmed(query: string)
    requires query != [] && Trimmed(query)
    ensures SearchDestination(query) == Some(SearchFor(query))
  {
    assert query[0..|query|] == query;
    TrimUnique(query, 0, |query|);
  }

  /** White space around the query does not change where the form leads. */
  lemma DestinationIgnoresPadding(a: string, query: string, b: string)
    requires AllSpace(a) && AllSpace(b)
    ensures SearchDestination(a + query + b) == SearchDestination(query)
  {
    TrimIgnoresPadding(a, query, b);
  }

  /** Submitting the query a search route carries leads back to that same route. */
  lemma DestinationIsStable(query: string)
    requires !AllSpace(query)
    ensures SearchDestination(SearchDestination(query).value.q) == SearchDestination(query)
  {
    TrimIdempotent(query);
  }

  /** `"  react "` and `"react"` lead to the same place: the search page for `"react"`. */
  lemma PaddedReactExample()
    ensures SearchDestination("  react ") == SearchDestination("react") == Some(SearchFor("react"))
  {
    assert "  react " == "  " + "react" + " ";
    DestinationIgnoresPadding("  ", "react", " ");
    ReactIsTrimmed();
  }

  lemma ReactIsTrimmed()
    ensures Trim("react") == "react"
  {
    assert "react"[0..5] == "react";
    TrimUnique("react", 0, 5);
  }

  /** A blank query goes nowhere. */
  lemma BlankExamples()
    ensures SearchDestination("") == None
    ensures SearchDestination("   ") == None
  {
  }
}
