/**
 * Blog posts as the list views hold them, and the like toggle that both the
 * feed and the search page apply to their lists (`posts.map(post => post.id
 * === postId ? {...post, isLiked: !post.isLiked, likes: ...} : post)`).
 */
module Posts {
  import opened Optional

  datatype Author = Author(id: string, name: string, avatar: Option<string>)

  /** The list-view shape of a post: it carries a comment count, not the comments. */
  datatype Post = Post(
    id: string,
    title: string,
    content: string,
    image: Option<string>,
    author: Author,
    tags: seq<string>,
    likes: int,
    comments: int,
    createdAt: string,
    isLiked: bool)

  /** The two posts agree on every field except the like fields. */
  predicate SameExceptLike(a: Post, b: Post) {
    a.(likes := 0, isLiked := false) == b.(likes := 0, isLiked := false)
  }

  /** The liked flag is flipped and the count moves one step in the same direction. */
  predicate IsLikeFlip(before: Post, after: Post) {
    && SameExceptLike(before, after)
    && after.isLiked == !before.isLiked
    && after.likes == (if before.isLiked then before.likes - 1 else before.likes + 1)
  }

  /** The object spread that un-likes a liked post and likes an unliked one. */
  function Flip(p: Post): (r: Post)
    ensures IsLikeFlip(p, r)
  {
    p.(isLiked := !p.isLiked, likes := if p.isLiked then p.likes - 1 else p.likes + 1)
  }

  /** One element of the like `map`: the post with the clicked id is flipped, the others kept. */
  function ToggleOne(p: Post, id: string): (r: Post)
    ensures p.id == id ==> IsLikeFlip(p, r)
    ensures p.id != id ==> r == p
  {
    if p.id == id then Flip(p) else p
  }

  /** The like `map` over a whole list. */
  function Toggle(ps: seq<Post>, id: string): (r: seq<Post>)
    ensures |r| == |ps|
    ensures forall i :: 0 <= i < |ps| && ps[i].id == id ==> IsLikeFlip(ps[i], r[i])
    ensures forall i :: 0 <= i < |ps| && ps[i].id != id ==> r[i] == ps[i]
  {
    if ps == [] then [] else [ToggleOne(ps[0], id)] + Toggle(ps[1..], id)
  }

  function Ids(ps: seq<Post>): (r: seq<string>)
    ensures |r| == |ps| && forall i :: 0 <= i < |ps| ==> r[i] == ps[i].id
  {
    seq(|ps|, i requires 0 <= i < |ps| => ps[i].id)
  }

  /** No two posts of the list share an id. */
  predicate DistinctIds(ps: seq<Post>) {
    forall i, j :: 0 <= i < |ps| && 0 <= j < |ps| && i != j ==> ps[i].id != ps[j].id
  }

  // ---------------------------------------------------------------------------
  // Properties of the toggle
  // ---------------------------------------------------------------------------

  /** Toggling keeps the list's order: position by position, the ids are the same. */
  lemma ToggleKeepsIds(ps: seq<Post>, id: string)
    ensures Ids(Toggle(ps, id)) == Ids(ps)
  {
  }

  /** Liking twice is a no-op: the second toggle undoes the first, on the whole list. */
  lemma {:induction false} ToggleInvolution(ps: seq<Post>, id: string)
    ensures Toggle(Toggle(ps, id), id) == ps
  {
    if ps != [] {
      ToggleInvolution(ps[1..], id);
      var t := Toggle(ps, id);
      assert t == [ToggleOne(ps[0], id)] + Toggle(ps[1..], id);
      assert t[1..] == Toggle(ps[1..], id);
      assert ToggleOne(ToggleOne(ps[0], id), id) == ps[0];
    }
  }

  /** A toggle for an id the list does not hold leaves the list as it is. */
  lemma {:induction false} ToggleAbsent(ps: seq<Post>, id: string)
    requires id !in Ids(ps)
    ensures Toggle(ps, id) == ps
  {
    if ps != [] {
      assert Ids(ps[1..]) == Ids(ps)[1..];
      ToggleAbsent(ps[1..], id);
    }
  }

  /** Clicks on two posts can be handled in either order. */
  lemma {:induction false} ToggleCommutes(ps: seq<Post>, a: string, b: string)
    ensures Toggle(Toggle(ps, a), b) == Toggle(Toggle(ps, b), a)
  {
    if ps != [] {
      ToggleCommutes(ps[1..], a, b);
      assert Toggle(ps, a)[1..] == Toggle(ps[1..], a);
      assert Toggle(ps, b)[1..] == Toggle(ps[1..], b);
    }
  }

  /** With distinct ids, toggling the id of the post at `k` changes that post only. */
  lemma ToggleHitsOnePost(ps: seq<Post>, k: int)
    requires DistinctIds(ps) && 0 <= k < |ps|
    ensures IsLikeFlip(ps[k], Toggle(ps, ps[k].id)[k])
    ensures forall j :: 0 <= j < |ps| && j != k ==> Toggle(ps, ps[k].id)[j] == ps[j]
  {
  }

  // ---------------------------------------------------------------------------
  // Like counts under any sequence of clicks
  // ---------------------------------------------------------------------------

  /** The list after the clicks `ids`, handled in order. */
  function ApplyToggles(ps: seq<Post>, ids: seq<string>): (r: seq<Post>)
    ensures |r| == |ps|
    decreases |ids|
  {
    if ids == [] then ps else ApplyToggles(Toggle(ps, ids[0]), ids[1..])
  }

  /** The like count the post would have if the viewer had not liked it. */
  function BaseLikes(p: Post): int {
    if p.isLiked then p.likes - 1 else p.likes
  }

  /**
   * `ps` is what became of the list `base` after some like clicks: same
   * length and order, every field but the like fields as in `base`, and each
   * count at most the viewer's one like away from `base`'s.
   */
  predicate LikedVersionOf(ps: seq<Post>, base: seq<Post>) {
    && |ps| == |base|
    && forall i :: 0 <= i < |ps| ==> SameExceptLike(ps[i], base[i]) && BaseLikes(ps[i]) == BaseLikes(base[i])
  }

  /** A liked version of a list has that list's ids, position by position. */
  lemma LikedVersionKeepsIds(ps: seq<Post>, base: seq<Post>)
    requires LikedVersionOf(ps, base)
    ensures Ids(ps) == Ids(base)
  {
    forall i | 0 <= i < |ps| ensures ps[i].id == base[i].id {
      assert ps[i].(likes := 0, isLiked := false).id == ps[i].id;
    }
  }

  /** A like click keeps the list a liked version of the list it came from. */
  lemma ToggleKeepsLikedVersion(ps: seq<Post>, base: seq<Post>, id: string)
    requires LikedVersionOf(ps, base)
    ensures LikedVersionOf(Toggle(ps, id), base)
  {
  }

  /** Any sequence of clicks yields a liked version of the starting list. */
  lemma {:induction false} TogglesKeepBaseLikes(ps: seq<Post>, ids: seq<string>)
    ensures LikedVersionOf(ApplyToggles(ps, ids), ps)
    decreases |ids|
  {
    if ids == [] {
      assert LikedVersionOf(ps, ps);
    } else {
      TogglesKeepBaseLikes(Toggle(ps, ids[0]), ids[1..]);
    }
  }

  /**
   * On a liked version of unliked posts with n likes each, every count is
   * n or n + 1, n + 1 exactly when the viewer likes the post.
   */
  lemma LikedVersionCounts(ps: seq<Post>, base: seq<Post>, n: int)
    requires LikedVersionOf(ps, base)
    requires forall i :: 0 <= i < |base| ==> base[i].likes == n && !base[i].isLiked
    ensures forall i :: 0 <= i < |ps| ==> ps[i].likes == (if ps[i].isLiked then n + 1 else n)
  {
  }

  /**
   * Starting from unliked posts with n likes each, whatever is clicked, every
   * count is n or n + 1, so a count never drops below a non-negative start.
   */
  lemma TogglesStayNearStart(ps: seq<Post>, ids: seq<string>, n: int)
    requires forall i :: 0 <= i < |ps| ==> ps[i].likes == n && !ps[i].isLiked
    ensures forall i :: 0 <= i < |ps| ==>
      var q := ApplyToggles(ps, ids)[i];
      q.likes == (if q.isLiked then n + 1 else n) && q.likes >= n
  {
    TogglesKeepBaseLikes(ps, ids);
    LikedVersionCounts(ApplyToggles(ps, ids), ps, n);
  }
}
