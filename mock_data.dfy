/**
 * The canned post every mock generator builds: the feed, the most-liked
 * sidebar and the search result differ only in id and picture.
 */
module MockData {
  import opened Optional
  import opened Posts

  const Title: string := "5 Reasons to Learn Frontend Development in 2025"
  const Content: string := "Frontend development is more than just building beautiful user interfaces — it's about crafting user experiences that are fast, accessible, and intuitive. As we move into 2025, the demand for skilled frontend developers continues to rise."
  const Writer: Author := Author("author-1", "John Doe", Some("/image-6.png"))
  const Tags: seq<string> := ["Programming", "Frontend", "Coding"]
  const CreatedAt: string := "2025-05-27T00:00:00Z"
  const StartLikes: int := 20
  const StartComments: int := 20

  /** A fresh, unliked copy of the canned post under the given id and picture. */
  function MockPost(id: string, image: Option<string>): (p: Post)
    ensures p.id == id && p.image == image
    ensures p.likes == StartLikes && !p.isLiked && p.comments == StartComments
  {
    Post(id, Title, Content, image, Writer, Tags, StartLikes, StartComments, CreatedAt, false)
  }

  /** The decimal digit for `d`. */
  function Digit(d: int): (c: char)
    requires 0 <= d < 10
    ensures '0' <= c <= '9' && c as int - '0' as int == d
  {
    ('0' as int + d) as char
  }

  /** The decimal numeral of `n`, as a template literal prints it. */
  function DecimalString(n: nat): (r: string)
    ensures r != [] && (|r| == 1 <==> n < 10)
    ensures forall k :: 0 <= k < |r| ==> '0' <= r[k] <= '9'
  {
    if n < 10 then [Digit(n)] else DecimalString(n / 10) + [Digit(n % 10)]
  }

  /** Different numbers print differently. */
  lemma {:induction false} DecimalStringInjective(a: nat, b: nat)
    requires DecimalString(a) == DecimalString(b)
    ensures a == b
  {
    var s := DecimalString(a);
    if a < 10 {
      assert b < 10;
      assert Digit(a) == s[0] == Digit(b);
    } else {
      assert b >= 10;
      assert Digit(a % 10) == s[|s| - 1] == Digit(b % 10);
      assert DecimalString(a / 10) == s[..|s| - 1] == DecimalString(b / 10);
      DecimalStringInjective(a / 10, b / 10);
    }
  }
}
