/**
 * The feed's main column: one row per post, each with a like button and a
 * divider below every row but the last, and the Previous / Next pager.
 * The component has no state of its own; everything here is a function of
 * its props (`posts`, `currentPage`, `totalPages`).
 */
module MainContent {
  import opened Posts

  // ---------------------------------------------------------------------------
  // Pager
  // ---------------------------------------------------------------------------

  /** The page the Previous button asks for, `Math.max(1, currentPage - 1)`. */
  function PreviousTarget(currentPage: int): (r: int)
    ensures r >= 1 && r >= currentPage - 1
    ensures r == 1 || r == currentPage - 1
  {
    if currentPage - 1 > 1 then currentPage - 1 else 1
  }

  /** The page the Next button asks for, `Math.min(totalPages, currentPage + 1)`. */
  function NextTarget(currentPage: int, totalPages: int): (r: int)
    ensures r <= totalPages && r <= currentPage + 1
    ensures r == totalPages || r == currentPage + 1
  {
    if currentPage + 1 < totalPages then currentPage + 1 else totalPages
  }

  /** `disabled={currentPage === 1}` */
  predicate PreviousDisabled(currentPage: int)
    ensures PreviousDisabled(currentPage) <==> PreviousTarget(currentPage) == currentPage
  {
    currentPage == 1
  }

  /** `disabled={currentPage === totalPages}` */
  predicate NextDisabled(currentPage: int, totalPages: int)
    ensures NextDisabled(currentPage, totalPages) <==> NextTarget(currentPage, totalPages) == currentPage
  {
    currentPage == totalPages
  }

  /** From a page in range, both buttons ask for a page in range. */
  lemma TargetsInRange(currentPage: int, totalPages: int)
    requires 1 <= currentPage <= totalPages
    ensures 1 <= PreviousTarget(currentPage) <= totalPages
    ensures 1 <= NextTarget(currentPage, totalPages) <= totalPages
  {
  }

  /**
   * A button is disabled exactly when pressing it would ask for the page
   * already shown; an enabled button always moves by one page.
   */
  lemma DisabledExactlyWhenStuck(currentPage: int, totalPages: int)
    requires 1 <= currentPage <= totalPages
    ensures PreviousDisabled(currentPage) <==> PreviousTarget(currentPage) == currentPage
    ensures NextDisabled(currentPage, totalPages) <==> NextTarget(currentPage, totalPages) == currentPage
    ensures !PreviousDisabled(currentPage) ==> PreviousTarget(currentPage) == currentPage - 1
    ensures !NextDisabled(currentPage, totalPages) ==> NextTarget(currentPage, totalPages) == currentPage + 1
  {
  }

  /** Next undoes an enabled Previous, and Previous undoes an enabled Next. */
  lemma PreviousNextInverse(currentPage: int, totalPages: int)
    requires 1 <= currentPage <= totalPages
    ensures !PreviousDisabled(currentPage) ==> NextTarget(PreviousTarget(currentPage), totalPages) == currentPage
    ensures !NextDisabled(currentPage, totalPages) ==> PreviousTarget(NextTarget(currentPage, totalPages)) == currentPage
  {
  }

  // ---------------------------------------------------------------------------
  // Rows
  // ---------------------------------------------------------------------------

  /** What one row of the list shows and does: its post, the id its like button passes to `onLike`, and whether a divider follows it. */
  datatype Row = Row(post: Post, likeArgument: string, dividerAfter: bool)

  /** `posts.map((post, index) => ...)` with `onClick={() => onLike(post.id)}` and `index < posts.length - 1`. */
  function Rows(posts: seq<Post>): (rows: seq<Row>)
    ensures |rows| == |posts|
    ensures forall i :: 0 <= i < |posts| ==> rows[i].post == posts[i] && rows[i].likeArgument == posts[i].id
    ensures forall i :: 0 <= i < |posts| ==> (rows[i].dividerAfter <==> i + 1 < |posts|)
  {
    seq(|posts|, i requires 0 <= i < |posts| => Row(posts[i], posts[i].id, i < |posts| - 1))
  }

  function CountDividers(rows: seq<Row>): nat {
    if rows == [] then 0 else (if rows[0].dividerAfter then 1 else 0) + CountDividers(rows[1..])
  }

  /** n rows are separated by n - 1 dividers (none for an empty list). */
  lemma {:induction false} DividersBetweenRows(posts: seq<Post>)
    ensures CountDividers(Rows(posts)) == if |posts| == 0 then 0 else |posts| - 1
  {
    if posts != [] {
      assert Rows(posts)[1..] == Rows(posts[1..]);
      DividersBetweenRows(posts[1..]);
    }
  }

  /**
   * Handing a row's like argument to the list toggle flips that row's post,
   * and, when ids are distinct, no other post.
   */
  lemma LikeClickFlipsItsRow(posts: seq<Post>, k: int)
    requires 0 <= k < |posts|
    ensures IsLikeFlip(posts[k], Toggle(posts, Rows(posts)[k].likeArgument)[k])
    ensures DistinctIds(posts) ==>
      forall j :: 0 <= j < |posts| && j != k ==> Toggle(posts, Rows(posts)[k].likeArgument)[j] == posts[j]
  {
  }
}
