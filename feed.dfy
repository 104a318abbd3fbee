/**
 * The home page: a feed of posts, a "Most Liked" sidebar and a pager.
 * Its React state (`posts`, `mostLikedPosts`, `currentPage`, `totalPages`,
 * `loading`) is the state of a FeedPage object, and each handler is a
 * method that replaces some of it.
 */
module Feed {
  import opened Optional
  import opened Posts
  import opened MockData
  import opened MainContent

  // ---------------------------------------------------------------------------
  // Mock generators
  // ---------------------------------------------------------------------------

  /** `post-${i + 1}` */
  function FeedId(i: nat): (r: string)
    ensures |r| > 5 && r[..5] == "post-" && r[5..] == DecimalString(i + 1)
    ensures forall k :: 5 <= k < |r| ==> '0' <= r[k] <= '9'
  {
    "post-" + DecimalString(i + 1)
  }

  /** `liked-${i + 1}` */
  function LikedId(i: nat): (r: string)
    ensures |r| > 6 && r[..6] == "liked-" && r[6..] == DecimalString(i + 1)
    ensures forall k :: 6 <= k < |r| ==> '0' <= r[k] <= '9'
  {
    "liked-" + DecimalString(i + 1)
  }

  /** `Array.from({ length: 5 }, ...)` in fetchPosts: five copies of the canned post with a picture. */
  function MockFeed(): (r: seq<Post>)
    ensures |r| == 5
    ensures forall i :: 0 <= i < 5 ==> r[i].id == FeedId(i) && r[i].image == Some("/image-5.png")
    ensures forall i :: 0 <= i < 5 ==> r[i].likes == 20 && !r[i].isLiked
  {
    seq(5, i requires 0 <= i < 5 => MockPost(FeedId(i), Some("/image-5.png")))
  }

  /** `Array.from({ length: 3 }, ...)` in fetchMostLikedPosts: three copies without a picture. */
  function MockMostLiked(): (r: seq<Post>)
    ensures |r| == 3
    ensures forall i :: 0 <= i < 3 ==> r[i].id == LikedId(i) && r[i].image == None
    ensures forall i :: 0 <= i < 3 ==> r[i].likes == 20 && !r[i].isLiked
  {
    seq(3, i requires 0 <= i < 3 => MockPost(LikedId(i), None))
  }

  /** The page count fetchPosts sets. */
  const MockTotalPages: int := 3

  /** The ids come out as written: `post-1` .. `post-5` and `liked-1` .. `liked-3`. */
  lemma MockIds()
    ensures Ids(MockFeed()) == ["post-1", "post-2", "post-3", "post-4", "post-5"]
    ensures Ids(MockMostLiked()) == ["liked-1", "liked-2", "liked-3"]
  {
    assert DecimalString(1) == "1" && DecimalString(2) == "2" && DecimalString(3) == "3";
    assert DecimalString(4) == "4" && DecimalString(5) == "5";
    assert FeedId(0) == "post-1" && FeedId(1) == "post-2" && FeedId(2) == "post-3";
    assert FeedId(3) == "post-4" && FeedId(4) == "post-5";
    assert LikedId(0) == "liked-1" && LikedId(1) == "liked-2" && LikedId(2) == "liked-3";
    assert Ids(MockFeed()) == [FeedId(0), FeedId(1), FeedId(2), FeedId(3), FeedId(4)];
    assert Ids(MockMostLiked()) == [LikedId(0), LikedId(1), LikedId(2)];
  }

  /** Within each list the ids are distinct, so a like click reaches one post only. */
  lemma MockIdsDistinct()
    ensures DistinctIds(MockFeed()) && DistinctIds(MockMostLiked())
  {
    forall i, j | 0 <= i < 5 && 0 <= j < 5 && MockFeed()[i].id == MockFeed()[j].id ensures i == j {
      assert DecimalString(i + 1) == FeedId(i)[5..] == FeedId(j)[5..] == DecimalString(j + 1);
      DecimalStringInjective(i + 1, j + 1);
    }
    forall i, j | 0 <= i < 3 && 0 <= j < 3 && MockMostLiked()[i].id == MockMostLiked()[j].id ensures i == j {
      assert DecimalString(i + 1) == LikedId(i)[6..] == LikedId(j)[6..] == DecimalString(j + 1);
      DecimalStringInjective(i + 1, j + 1);
    }
  }

  /** No feed id is a most-liked id: the prefixes `post-` and `liked-` already differ. */
  lemma MockIdsDisjoint()
    ensures forall i, j :: 0 <= i < 5 && 0 <= j < 3 ==> MockFeed()[i].id != MockMostLiked()[j].id
  {
    forall i, j | 0 <= i < 5 && 0 <= j < 3 ensures MockFeed()[i].id != MockMostLiked()[j].id {
      assert MockFeed()[i].id[0] == 'p' && MockMostLiked()[j].id[0] == 'l';
    }
  }

  /**
   * Liking a feed post leaves the sidebar alone, and liking a sidebar post
   * leaves the feed alone, whatever was clicked before: a liked version of a
   * list has that list's ids.
   */
  lemma MockListsIndependent(posts: seq<Post>, liked: seq<Post>, id: string)
    requires LikedVersionOf(posts, MockFeed()) && LikedVersionOf(liked, MockMostLiked())
    ensures id in Ids(MockFeed()) ==> Toggle(liked, id) == liked
    ensures id in Ids(MockMostLiked()) ==> Toggle(posts, id) == posts
  {
    MockIdsDisjoint();
    LikedVersionKeepsIds(posts, MockFeed());
    LikedVersionKeepsIds(liked, MockMostLiked());
    if id in Ids(MockFeed()) {
      ToggleAbsent(liked, id);
    }
    if id in Ids(MockMostLiked()) {
      ToggleAbsent(posts, id);
    }
  }

  // ---------------------------------------------------------------------------
  // Page state
  // ---------------------------------------------------------------------------

  class FeedPage {
    var posts: seq<Post>
    var mostLikedPosts: seq<Post>
    var currentPage: int
    var totalPages: int
    var loading: bool

    /**
     * What every handler keeps true: three pages, and each list either not
     * loaded yet or the mock list with likes applied.
     */
    predicate Valid()
      reads this
    {
      && totalPages == MockTotalPages
      && (posts == [] || LikedVersionOf(posts, MockFeed()))
      && (mostLikedPosts == [] || LikedVersionOf(mostLikedPosts, MockMostLiked()))
    }

    /** The current page is one of the pages; the pager buttons keep this, handlePageChange itself does not check it. */
    predicate PageInRange()
      reads this
    {
      1 <= currentPage <= totalPages
    }

    /** The state before the first effect: empty lists, page 2 of 3, loading. */
    constructor ()
      ensures Valid() && PageInRange()
      ensures posts == [] && mostLikedPosts == []
      ensures currentPage == 2 && totalPages == 3 && loading
    {
      posts := [];
      mostLikedPosts := [];
      currentPage := 2;
      totalPages := 3;
      loading := true;
    }

    /**
     * fetchPosts. `fault` stands for an exception inside its `try`, after
     * which nothing is replaced; `loading` ends false on both paths.
     */
    method FetchPosts(fault: bool)
      requires Valid()
      modifies this
      ensures Valid()
      ensures posts == (if fault then old(posts) else MockFeed())
      ensures totalPages == (if fault then old(totalPages) else MockTotalPages)
      ensures !loading
      ensures mostLikedPosts == old(mostLikedPosts) && currentPage == old(currentPage)
    {
      loading := true;
      if !fault {
        posts := MockFeed();
        totalPages := MockTotalPages;
      }
      loading := false;
    }

    /** fetchMostLikedPosts; it does not touch `loading`. */
    method FetchMostLikedPosts(fault: bool)
      requires Valid()
      modifies this
      ensures Valid()
      ensures mostLikedPosts == (if fault then old(mostLikedPosts) else MockMostLiked())
      ensures posts == old(posts) && currentPage == old(currentPage)
      ensures totalPages == old(totalPages) && loading == old(loading)
    {
      if !fault {
        mostLikedPosts := MockMostLiked();
      }
    }

    /** The effect that runs on mount and whenever `currentPage` changes: both fetches, feed first. */
    method PageEffect(postsFault: bool, likedFault: bool)
      requires Valid()
      modifies this
      ensures Valid()
      ensures posts == (if postsFault then old(posts) else MockFeed())
      ensures mostLikedPosts == (if likedFault then old(mostLikedPosts) else MockMostLiked())
      ensures currentPage == old(currentPage) && totalPages == old(totalPages) && !loading
    {
      FetchPosts(postsFault);
      FetchMostLikedPosts(likedFault);
    }

    /** handleLike: the same id is toggled in both lists, each on its own. */
    method HandleLike(postId: string)
      requires Valid()
      modifies this
      ensures Valid()
      ensures posts == Toggle(old(posts), postId)
      ensures mostLikedPosts == Toggle(old(mostLikedPosts), postId)
      ensures postId in Ids(MockFeed()) ==> mostLikedPosts == old(mostLikedPosts)
      ensures postId in Ids(MockMostLiked()) ==> posts == old(posts)
      ensures currentPage == old(currentPage) && totalPages == old(totalPages) && loading == old(loading)
    {
      if postId in Ids(MockFeed()) && mostLikedPosts != [] {
        MockIdsDisjoint();
        LikedVersionKeepsIds(mostLikedPosts, MockMostLiked());
        ToggleAbsent(mostLikedPosts, postId);
      }
      if postId in Ids(MockMostLiked()) && posts != [] {
        MockIdsDisjoint();
        LikedVersionKeepsIds(posts, MockFeed());
        ToggleAbsent(posts, postId);
      }
      if posts != [] {
        ToggleKeepsLikedVersion(posts, MockFeed(), postId);
      }
      if mostLikedPosts != [] {
        ToggleKeepsLikedVersion(mostLikedPosts, MockMostLiked(), postId);
      }
      posts := Toggle(posts, postId);
      mostLikedPosts := Toggle(mostLikedPosts, postId);
    }

    /**
     * handlePageChange stores the page it is given, whatever it is: the
     * handler does not clamp. A new value re-runs the page effect; the same
     * value changes nothing.
     */
    method HandlePageChange(page: int, postsFault: bool, likedFault: bool)
      requires Valid()
      modifies this
      ensures Valid()
      ensures currentPage == page && totalPages == old(totalPages)
      ensures page != old(currentPage) ==>
        && posts == (if postsFault then old(posts) else MockFeed())
        && mostLikedPosts == (if likedFault then old(mostLikedPosts) else MockMostLiked())
        && !loading
      ensures page == old(currentPage) ==>
        posts == old(posts) && mostLikedPosts == old(mostLikedPosts) && loading == old(loading)
    {
      var changed := page != currentPage;
      currentPage := page;
      if changed {
        PageEffect(postsFault, likedFault);
      }
    }

    /** The Previous button: ignored while disabled, otherwise a change to `Math.max(1, currentPage - 1)`. */
    method ClickPrevious(postsFault: bool, likedFault: bool)
      requires Valid() && PageInRange()
      modifies this
      ensures Valid() && PageInRange() && totalPages == old(totalPages)
      ensures PreviousDisabled(old(currentPage)) ==>
        && currentPage == old(currentPage) && posts == old(posts) && mostLikedPosts == old(mostLikedPosts)
        && loading == old(loading)
      ensures !PreviousDisabled(old(currentPage)) ==>
        && currentPage == old(currentPage) - 1 && !loading
        && posts == (if postsFault then old(posts) else MockFeed())
        && mostLikedPosts == (if likedFault then old(mostLikedPosts) else MockMostLiked())
    {
      if !PreviousDisabled(currentPage) {
        TargetsInRange(currentPage, totalPages);
        HandlePageChange(PreviousTarget(currentPage), postsFault, likedFault);
      }
    }

    /** The Next button: ignored while disabled, otherwise a change to `Math.min(totalPages, currentPage + 1)`. */
    method ClickNext(postsFault: bool, likedFault: bool)
      requires Valid() && PageInRange()
      modifies this
      ensures Valid() && PageInRange() && totalPages == old(totalPages)
      ensures NextDisabled(old(currentPage), old(totalPages)) ==>
        && currentPage == old(currentPage) && posts == old(posts) && mostLikedPosts == old(mostLikedPosts)
        && loading == old(loading)
      ensures !NextDisabled(old(currentPage), old(totalPages)) ==>
        && currentPage == old(currentPage) + 1 && !loading
        && posts == (if postsFault then old(posts) else MockFeed())
        && mostLikedPosts == (if likedFault then old(mostLikedPosts) else MockMostLiked())
    {
      if !NextDisabled(currentPage, totalPages) {
        TargetsInRange(currentPage, totalPages);
        HandlePageChange(NextTarget(currentPage, totalPages), postsFault, likedFault);
      }
    }
  }

  /** Every displayed like count is 20 or 21, however the viewer has clicked. */
  lemma LikeCounts(page: FeedPage)
    requires page.Valid()
    ensures forall i :: 0 <= i < |page.posts| ==> page.posts[i].likes == (if page.posts[i].isLiked then 21 else 20)
    ensures forall i :: 0 <= i < |page.mostLikedPosts| ==>
      page.mostLikedPosts[i].likes == (if page.mostLikedPosts[i].isLiked then 21 else 20)
  {
    if page.posts != [] {
      LikedVersionCounts(page.posts, MockFeed(), 20);
    }
    if page.mostLikedPosts != [] {
      LikedVersionCounts(page.mostLikedPosts, MockMostLiked(), 20);
    }
  }

  /** Mount, then like post-1 in the feed twice and liked-2 once. */
  method LikeScenario()
  {
    var page := new FeedPage();
    page.PageEffect(false, false);
    MockIds();
    page.HandleLike("post-1");
    assert page.posts[0].isLiked && page.posts[0].likes == 21;
    assert page.mostLikedPosts == MockMostLiked();
    page.HandleLike("post-1");
    ToggleInvolution(MockFeed(), "post-1");
    assert page.posts == MockFeed();
    page.HandleLike("liked-2");
    assert page.mostLikedPosts[1].likes == 21;
  }

  /** From page 2 of 3: Next reloads page 3, then Next is disabled and Previous goes back. */
  method PagerScenario()
  {
    var page := new FeedPage();
    page.PageEffect(false, false);
    page.ClickNext(false, false);
    assert page.currentPage == 3 && page.posts == MockFeed();
    page.ClickNext(false, false);
    assert page.currentPage == 3;
    page.ClickPrevious(false, false);
    assert page.currentPage == 2;
  }
}
