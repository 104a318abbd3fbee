/**
 * The search box in the header: its text, and the submit handler that
 * navigates to the search page for the trimmed text unless it is blank.
 */
module SearchForm {
  import opened Text
  import opened Routes

  /** A route a submission can produce: the search page for a non-empty query without surrounding white space. */
  predicate IsSubmittable(r: Route) {
    r.SearchFor? && r.q != [] && Trimmed(r.q)
  }

  class SearchBar {
    /** The text in the box. */
    var searchQuery: string
    /** The routes handed to `router.push`, oldest first. */
    var pushed: seq<Route>

    /** Whatever was pushed is a search page for a non-empty, trimmed query. */
    predicate Valid()
      reads this`pushed
    {
      forall i :: 0 <= i < |pushed| ==> IsSubmittable(pushed[i])
    }

    /** The box starts empty, and nothing has been pushed. */
    constructor ()
      ensures Valid()
      ensures searchQuery == [] && pushed == []
    {
      searchQuery := [];
      pushed := [];
    }

    /** Typing into the box. */
    method Input(text: string)
      modifies this`searchQuery
      ensures searchQuery == text
    {
      searchQuery := text;
    }

    /**
     * Submitting the form: a blank box pushes nothing; otherwise the search
     * route for the text without its surrounding white space is pushed. The
     * box keeps its text either way.
     */
    method HandleSearch()
      requires Valid()
      modifies this`pushed
      ensures Valid()
      ensures SearchDestination(searchQuery).None? ==> pushed == old(pushed)
      ensures SearchDestination(searchQuery).Some? ==> pushed == old(pushed) + [SearchDestination(searchQuery).value]
    {
      var destination := SearchDestination(searchQuery);
      if destination.Some? {
        assert IsSubmittable(destination.value);
        pushed := pushed + [destination.value];
      }
    }
  }

  /** Submitting "  react " pushes the route for "react"; a blank box then adds nothing. */
  method SubmitScenario()
  {
    var bar := new SearchBar();
    bar.Input("  react ");
    PaddedReactExample();
    assert Trim("  react ") == "react";
    bar.HandleSearch();
    assert bar.pushed == [SearchFor("react")];
    bar.Input("   ");
    BlankExamples();
    bar.HandleSearch();
    assert bar.pushed == [SearchFor("react")];
  }
}
