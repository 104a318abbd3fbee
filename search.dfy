/**
 * The search page: the query from the URL, the text in the search box, the
 * result list, a `hasSearched` flag, and the three views they select between.
 */
module Search {
  import opened Optional
  import opened Text
  import opened Posts
  import opened MockData
  import opened Routes

  // ---------------------------------------------------------------------------
  // The mock search
  // ---------------------------------------------------------------------------

  const Keyword: string := "frontend"

  /** The one canned hit. */
  function SearchHit(): (p: Post)
    ensures p.id == "search-1" && p.likes == 20 && !p.isLiked && p.image == Some("/image-5.png")
  {
    MockPost("search-1", Some("/image-5.png"))
  }

  /** The lower-cased query contains "frontend" at some position. */
  predicate MentionsKeyword(query: string) {
    exists k :: 0 <= k <= |query| && OccursAt(Lower(query), Keyword, k)
  }

  /**
   * searchPosts' result: the canned hit when the lower-cased query contains
   * "frontend" anywhere, nothing otherwise.
   */
  function SearchResults(query: string): (r: seq<Post>)
    ensures r == [] || r == [SearchHit()]
    ensures r != [] <==> MentionsKeyword(query)
  {
    var lowered := Lower(query);
    var found := Includes(lowered, Keyword);
    assert found ==> MentionsKeyword(query) by {
      if found {
        var k :| OccursAt(lowered, Keyword, k);
        assert 0 <= k <= |query| && OccursAt(Lower(query), Keyword, k);
      }
    }
    if found then [SearchHit()] else []
  }

  /** Lower-casing distributes over concatenation. */
  lemma LowerAppend(a: string, b: string)
    ensures Lower(a + b) == Lower(a) + Lower(b)
  {
  }

  /** The search ignores case: a query and its lower-cased form find the same. */
  lemma SearchIgnoresCase(query: string)
    ensures SearchResults(Lower(query)) == SearchResults(query)
  {
    LowerIdempotent(query);
  }

  /** A query that mentions the keyword still mentions it with more text around it. */
  lemma MentionSurvivesExtension(a: string, query: string, b: string)
    requires MentionsKeyword(query)
    ensures MentionsKeyword(a + query + b)
  {
    var k :| 0 <= k <= |query| && OccursAt(Lower(query), Keyword, k);
    LowerAppend(a, query);
    LowerAppend(a + query, b);
    var whole := Lower(a + query + b);
    assert whole == Lower(a) + Lower(query) + Lower(b);
    assert whole[|a| + k..|a| + k + |Keyword|] == Lower(query)[k..k + |Keyword|];
    assert OccursAt(whole, Keyword, |a| + k);
  }

  /** A query that finds the hit still finds it with more text around it. */
  lemma SearchSurvivesExtension(a: string, query: string, b: string)
    requires SearchResults(query) != []
    ensures SearchResults(a + query + b) == SearchResults(query)
  {
    MentionSurvivesExtension(a, query, b);
  }

  /** `"Frontend Development"` finds the hit: its lower-cased form starts with "frontend". */
  lemma FrontendDevelopmentMatches()
    ensures SearchResults("Frontend Development") == [SearchHit()]
  {
    var l := Lower("Frontend Development");
    assert l[..8] == "frontend";
    assert OccursAt(l, Keyword, 0);
  }

  /** `"FRONTEND"` finds the hit: the match ignores case. */
  lemma UpperCaseMatches()
    ensures SearchResults("FRONTEND") == [SearchHit()]
  {
    var l := Lower("FRONTEND");
    assert l == "frontend";
    assert OccursAt(l, Keyword, 0);
  }

  /** `"zzz-no-match"` has no "f" at all, so it finds nothing. */
  lemma NoMatchExample()
    ensures SearchResults("zzz-no-match") == []
  {
    MissingFirstCharExcludes(Lower("zzz-no-match"), Keyword);
  }

  // ---------------------------------------------------------------------------
  // Views
  // ---------------------------------------------------------------------------

  /** What the result area shows: nothing yet, the first result with its like button, or "No results found" with a link home. */
  datatype View = Blank | Found(shown: Post, likeArgument: string) | NoResults(back: Route)

  /** The wide layout's nested ternary: `!hasSearched ? ... : results.length > 0 ? ... : ...`. */
  function DesktopView(hasSearched: bool, results: seq<Post>): (v: View)
    ensures v.Blank? <==> !hasSearched
    ensures v.Found? <==> hasSearched && results != []
    ensures v.NoResults? <==> hasSearched && results == []
    ensures v.Found? ==> v.shown == results[0] && v.likeArgument == results[0].id
    ensures v.NoResults? ==> v.back == Home
  {
    if !hasSearched then Blank
    else if |results| > 0 then Found(results[0], results[0].id)
    else NoResults(Home)
  }

  /** The narrow layout's two independent guards, each rendering its section or nothing. */
  function MobileSections(hasSearched: bool, results: seq<Post>): (v: seq<View>)
    ensures |v| <= 1
    ensures v == [] <==> !hasSearched
    ensures v != [] ==> (v[0].Found? <==> results != []) && (v[0].Found? || v[0].NoResults?)
  {
    (if hasSearched && |results| > 0 then [Found(results[0], results[0].id)] else [])
    + (if hasSearched && |results| == 0 then [NoResults(Home)] else [])
  }

  /** Both layouts show the same thing: at most one section, the wide layout's choice. */
  lemma LayoutsAgree(hasSearched: bool, results: seq<Post>)
    ensures MobileSections(hasSearched, results)
      == if DesktopView(hasSearched, results).Blank? then [] else [DesktopView(hasSearched, results)]
  {
  }

  /** After a search that did not fail, the hit is shown exactly when the query mentions "frontend". */
  lemma ViewAfterSearch(query: string)
    ensures DesktopView(true, SearchResults(query)).Found? <==> MentionsKeyword(query)
    ensures DesktopView(true, SearchResults(query)).NoResults? <==> !MentionsKeyword(query)
  {
  }

  // ---------------------------------------------------------------------------
  // Page state
  // ---------------------------------------------------------------------------

  class SearchPage {
    /** `searchParams.get("q") || ""` */
    var query: string
    /** The search box. */
    var searchQuery: string
    var results: seq<Post>
    var loading: bool
    var hasSearched: bool
    /** The routes handed to `router.push`, oldest first. */
    var pushed: seq<Route>

    /** The results are nothing, or the canned hit with the viewer's like applied. */
    predicate Valid()
      reads this`results
    {
      results == [] || LikedVersionOf(results, [SearchHit()])
    }

    /** The view the wide layout renders from the current state. */
    function CurrentView(): (v: View)
      reads this
      ensures v.Blank? <==> !hasSearched
      ensures v.Found? <==> hasSearched && results != []
      ensures v.Found? ==> v.shown == results[0] && v.likeArgument == results[0].id
    {
      DesktopView(hasSearched, results)
    }

    /** Mount: the box starts with the URL query, no results, and `hasSearched` set iff that query is non-empty. */
    constructor (param: Option<string>)
      ensures Valid()
      ensures query == param.GetOr("") && searchQuery == query
      ensures results == [] && !loading && pushed == []
      ensures hasSearched <==> query != []
    {
      query := param.GetOr("");
      searchQuery := param.GetOr("");
      results := [];
      loading := false;
      hasSearched := param.GetOr("") != [];
      pushed := [];
    }

    /**
     * searchPosts. `fault` stands for an exception inside its `try`; the
     * catch empties the results. `loading` ends false on both paths.
     */
    method SearchPosts(q: string, fault: bool)
      requires Valid()
      modifies this`results, this`loading
      ensures Valid()
      ensures results == (if fault then [] else SearchResults(q))
      ensures !loading
    {
      loading := true;
      if fault {
        results := [];
      } else {
        results := SearchResults(q);
      }
      loading := false;
    }

    /** The effect on `query`: a non-empty query is copied into the box, searched, and marks the page searched. */
    method QueryEffect(fault: bool)
      requires Valid()
      modifies this
      ensures Valid()
      ensures query == old(query) && pushed == old(pushed)
      ensures query != [] ==>
        && searchQuery == query && hasSearched && !loading
        && results == (if fault then [] else SearchResults(query))
      ensures query == [] ==>
        searchQuery == old(searchQuery) && hasSearched == old(hasSearched) && results == old(results)
        && loading == old(loading)
    {
      if query != [] {
        searchQuery := query;
        hasSearched := true;
        SearchPosts(query, fault);
      }
    }

    /** The URL's `q` changes (after a push): the effect runs when, and only when, the query differs. */
    method UrlChanged(param: Option<string>, fault: bool)
      requires Valid()
      modifies this
      ensures Valid()
      ensures query == param.GetOr("") && pushed == old(pushed)
      ensures query != old(query) && query != [] ==>
        searchQuery == query && hasSearched && !loading && results == (if fault then [] else SearchResults(query))
      ensures query == old(query) || query == [] ==>
        searchQuery == old(searchQuery) && hasSearched == old(hasSearched) && results == old(results)
        && loading == old(loading)
    {
      var q := param.GetOr("");
      if q != query {
        query := q;
        QueryEffect(fault);
      }
    }

    /** Typing into the box. */
    method Input(text: string)
      modifies this`searchQuery
      ensures searchQuery == text
    {
      searchQuery := text;
    }

    /**
     * handleSearch: a blank box does nothing; otherwise the page is marked
     * searched and the search route for the trimmed text is pushed.
     */
    method HandleSearch()
      modifies this`hasSearched, this`pushed
      ensures SearchDestination(searchQuery).None? ==> hasSearched == old(hasSearched) && pushed == old(pushed)
      ensures SearchDestination(searchQuery).Some? ==>
        hasSearched && pushed == old(pushed) + [SearchDestination(searchQuery).value]
    {
      var destination := SearchDestination(searchQuery);
      if destination.Some? {
        hasSearched := true;
        pushed := pushed + [destination.value];
      }
    }

    /** handleLike on the result list. */
    method HandleLike(postId: string)
      requires Valid()
      modifies this`results
      ensures Valid()
      ensures results == Toggle(old(results), postId)
    {
      if results != [] {
        ToggleKeepsLikedVersion(results, [SearchHit()], postId);
      }
      results := Toggle(results, postId);
    }
  }

  /** Opening `/search?q=Frontend Development` shows the hit; liking it counts 21. */
  method FoundScenario()
  {
    var page := new SearchPage(Some("Frontend Development"));
    page.QueryEffect(false);
    FrontendDevelopmentMatches();
    assert page.CurrentView() == Found(SearchHit(), "search-1");
    page.HandleLike("search-1");
    assert page.results[0].isLiked && page.results[0].likes == 21;
  }

  /** A blank search box goes nowhere and leaves the page unsearched. */
  method BlankSearchScenario()
  {
    var page := new SearchPage(None);
    assert page.CurrentView() == Blank;
    BlankExamples();
    page.Input("   ");
    assert SearchDestination(page.searchQuery) == None;
    page.HandleSearch();
    assert page.pushed == [] && !page.hasSearched;
  }

  /** Searching "zzz-no-match" from a blank page marks it searched and pushes the route for that query. */
  method SubmitScenario()
  {
    var page := new SearchPage(None);
    page.Input("zzz-no-match");
    DestinationOfTrimmed("zzz-no-match");
    page.HandleSearch();
    assert page.hasSearched && page.pushed == [SearchFor("zzz-no-match")];
  }

  /** Once the URL carries "zzz-no-match", the page shows "No results found" with a link home. */
  method NoResultsScenario()
  {
    var page := new SearchPage(None);
    NoMatchExample();
    page.UrlChanged(Some("zzz-no-match"), false);
    assert page.query == "zzz-no-match";
    assert page.hasSearched && page.results == [];
    assert page.CurrentView() == NoResults(Home);
  }
}
