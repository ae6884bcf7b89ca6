/** The news portal's records (authors, posts, post-category links, comments),
    the reputation formula of `Author.update_rating`, the like/dislike counters
    and the post preview. Database tables are sequences of value rows; the
    objects whose methods change a field in place are classes. */
module NewsModels {
  import opened Common

  type UserId = nat
  type AuthorId = nat
  type PostId = nat
  type CategoryId = nat
  type CommentId = nat

  /** `Post.ARTICLE` ('AR') and `Post.NEWS` ('NW'). */
  datatype PostType = Article | News

  /** One row of the post table, as a query reads it. */
  datatype PostRow = PostRow(
    id: PostId,
    author: AuthorId,
    postType: PostType,
    createdAt: Time,
    title: string,
    content: string,
    rating: int)

  /** One row of the post-category join table. No uniqueness holds on the pair. */
  datatype PostCategoryRow = PostCategoryRow(post: PostId, category: CategoryId)

  /** One row of the comment table. */
  datatype CommentRow = CommentRow(
    id: CommentId,
    post: PostId,
    user: UserId,
    text: string,
    createdAt: Time,
    rating: int)

  // ---------------------------------------------------------------------------
  // Aggregates

  /** Sum of a column, added up from the first row to the last. */
  function Sum(values: seq<int>): int
    decreases |values|
  {
    if values == [] then 0 else Sum(values[..|values| - 1]) + values[|values| - 1]
  }

  /** SQL `SUM`: NULL (here `None`) over no rows. */
  function SumAggregate(values: seq<int>): (r: Option<int>)
    ensures r.None? <==> values == []
  {
    if values == [] then None else Some(Sum(values))
  }

  /** Python's `x or 0` on an aggregate. */
  function OrZero(v: Option<int>): int
  {
    if v.Some? then v.value else 0
  }

  lemma OrZeroSum(values: seq<int>)
    ensures OrZero(SumAggregate(values)) == Sum(values)
  {
  }

  lemma SumAppend(values: seq<int>, extra: seq<int>)
    requires |extra| <= 1
    ensures Sum(values + extra) == Sum(values) + Sum(extra)
  {
    if extra != [] {
      assert (values + extra)[..|values|] == values;
      assert extra[..0] == [];
    } else {
      assert values + extra == values;
    }
  }

  // ---------------------------------------------------------------------------
  // The three filtered columns of `update_rating`

  /** Ratings of the posts written by `author`, in table order. */
  function PostRatings(posts: seq<PostRow>, author: AuthorId): (r: seq<int>)
    ensures |r| <= |posts|
    ensures r == [] <==> forall p :: p in posts ==> p.author != author
    decreases |posts|
  {
    if posts == [] then []
    else
      var last := posts[|posts| - 1];
      var prev := PostRatings(posts[..|posts| - 1], author);
      assert forall p :: p in posts <==> p in posts[..|posts| - 1] || p == last;
      prev + (if last.author == author then [last.rating] else [])
  }

  /** Ratings of the comments written by `user`. */
  function CommentRatingsBy(comments: seq<CommentRow>, user: UserId): (r: seq<int>)
    ensures |r| <= |comments|
    ensures r == [] <==> forall c :: c in comments ==> c.user != user
    decreases |comments|
  {
    if comments == [] then []
    else
      var last := comments[|comments| - 1];
      var prev := CommentRatingsBy(comments[..|comments| - 1], user);
      assert forall c :: c in comments <==> c in comments[..|comments| - 1] || c == last;
      prev + (if last.user == user then [last.rating] else [])
  }

  /** Ids of the posts written by `author` (`values_list('id', flat=True)`). */
  function AuthorPostIds(posts: seq<PostRow>, author: AuthorId): (ids: set<PostId>)
    ensures forall p :: p in posts && p.author == author ==> p.id in ids
    ensures forall id :: id in ids ==> exists p :: p in posts && p.author == author && p.id == id
  {
    set p | p in posts && p.author == author :: p.id
  }

  /** Ratings of the comments on the posts `postIds` written by anyone but `user`. */
  function CommentRatingsOn(comments: seq<CommentRow>, postIds: set<PostId>, user: UserId): (r: seq<int>)
    ensures |r| <= |comments|
    ensures r == [] <==> forall c :: c in comments ==> c.post !in postIds || c.user == user
    decreases |comments|
  {
    if comments == [] then []
    else
      var last := comments[|comments| - 1];
      var prev := CommentRatingsOn(comments[..|comments| - 1], postIds, user);
      assert forall c :: c in comments <==> c in comments[..|comments| - 1] || c == last;
      prev + (if last.post in postIds && last.user != user then [last.rating] else [])
  }

  /** The value `update_rating` stores for the author `author` whose user is `user`. */
  function RecomputedRating(posts: seq<PostRow>, comments: seq<CommentRow>, author: AuthorId, user: UserId): (r: int)
    ensures r == 3 * Sum(PostRatings(posts, author)) + Sum(CommentRatingsBy(comments, user))
                 + Sum(CommentRatingsOn(comments, AuthorPostIds(posts, author), user))
  {
    OrZeroSum(PostRatings(posts, author));
    OrZeroSum(CommentRatingsBy(comments, user));
    OrZeroSum(CommentRatingsOn(comments, AuthorPostIds(posts, author), user));
    var postPart := OrZero(SumAggregate(PostRatings(posts, author))) * 3;
    var ownComments := OrZero(SumAggregate(CommentRatingsBy(comments, user)));
    var othersOnPosts := OrZero(SumAggregate(CommentRatingsOn(comments, AuthorPostIds(posts, author), user)));
    postPart + ownComments + othersOnPosts
  }

  /** An author without posts and without comments has rating 0: each empty
      aggregate counts as 0. */
  lemma InactiveAuthorRatesZero(posts: seq<PostRow>, comments: seq<CommentRow>, author: AuthorId, user: UserId)
    requires forall p :: p in posts ==> p.author != author
    requires forall c :: c in comments ==> c.user != user
    ensures RecomputedRating(posts, comments, author, user) == 0
  {
    assert AuthorPostIds(posts, author) == {};
  }

  /** One more comment changes the recomputed rating by its own rating when it
      was written by the author's user or sits on one of the author's posts, and
      by nothing otherwise. In particular a comment by the author on their own
      post counts once, not twice. */
  lemma RatingWithOneMoreComment(posts: seq<PostRow>, comments: seq<CommentRow>, c: CommentRow, author: AuthorId, user: UserId)
    ensures RecomputedRating(posts, comments + [c], author, user)
         == RecomputedRating(posts, comments, author, user)
            + (if c.user == user || c.post in AuthorPostIds(posts, author) then c.rating else 0)
  {
    var ids := AuthorPostIds(posts, author);
    var all := comments + [c];
    assert all[..|all| - 1] == comments;
    assert all[|all| - 1] == c;
    var own := if c.user == user then [c.rating] else [];
    var others := if c.post in ids && c.user != user then [c.rating] else [];
    assert CommentRatingsBy(all, user) == CommentRatingsBy(comments, user) + own;
    assert CommentRatingsOn(all, ids, user) == CommentRatingsOn(comments, ids, user) + others;
    SumAppend(CommentRatingsBy(comments, user), own);
    SumAppend(CommentRatingsOn(comments, ids, user), others);
    assert own != [] ==> Sum(own) == c.rating by { if own != [] { assert own[..0] == []; } }
    assert others != [] ==> Sum(others) == c.rating by { if others != [] { assert others[..0] == []; } }
    OrZeroSum(CommentRatingsBy(all, user));
    OrZeroSum(CommentRatingsBy(comments, user));
    OrZeroSum(CommentRatingsOn(all, ids, user));
    OrZeroSum(CommentRatingsOn(comments, ids, user));
  }

  /** The author's own comment on their own post is counted exactly once. */
  lemma OwnCommentOnOwnPostCountedOnce(posts: seq<PostRow>, comments: seq<CommentRow>, c: CommentRow, author: AuthorId, user: UserId)
    requires c.user == user
    requires exists p :: p in posts && p.author == author && p.id == c.post
    ensures RecomputedRating(posts, comments + [c], author, user)
         == RecomputedRating(posts, comments, author, user) + c.rating
  {
    RatingWithOneMoreComment(posts, comments, c, author, user);
  }

  /** A worked instance: the author's post rated +1 (another author's post,
      rated 5, does not count), the author's own comment on that post rated +2
      (counted once) and another user's comment on it rated -1 give
      3 * 1 + 2 + (-1) = 4. */
  lemma WorkedRatingExample()
    ensures RecomputedRating(
              [PostRow(1, 7, Article, 0, "a", "", 1), PostRow(2, 8, News, 0, "b", "", 5)],
              [CommentRow(1, 1, 70, "", 0, 2), CommentRow(2, 1, 80, "", 0, -1)],
              7, 70) == 4
  {
    var posts := [PostRow(1, 7, Article, 0, "a", "", 1), PostRow(2, 8, News, 0, "b", "", 5)];
    var comments := [CommentRow(1, 1, 70, "", 0, 2), CommentRow(2, 1, 80, "", 0, -1)];
    assert posts[..1] == [posts[0]];
    assert comments[..1] == [comments[0]];
    assert AuthorPostIds(posts, 7) == {1};
    assert PostRatings(posts, 7) == [1];
    assert CommentRatingsBy(comments, 70) == [2];
    assert CommentRatingsOn(comments, {1}, 70) == [-1];
  }

  // ---------------------------------------------------------------------------
  // Author

  class Author {
    const id: AuthorId
    const user: UserId
    var rating: int

    constructor (id: AuthorId, user: UserId)
      ensures this.id == id && this.user == user && rating == 0
    {
      this.id := id;
      this.user := user;
      rating := 0;
    }

    /** `update_rating`: recompute the reputation from the current post and
        comment tables. Only `rating` is written; the tables are values and are
        left as they were. */
    method UpdateRating(posts: seq<PostRow>, comments: seq<CommentRow>)
      modifies this`rating
      ensures rating == RecomputedRating(posts, comments, id, user)
    {
      var postSum := OrZero(SumAggregate(PostRatings(posts, id)));
      postSum := postSum * 3;
      var ownComments := OrZero(SumAggregate(CommentRatingsBy(comments, user)));
      var postIds := AuthorPostIds(posts, id);
      var othersOnPosts := OrZero(SumAggregate(CommentRatingsOn(comments, postIds, user)));
      rating := postSum + ownComments + othersOnPosts;
    }
  }

  /** Recomputing twice without writes in between stores the same value. */
  method UpdateRatingTwice(a: Author, posts: seq<PostRow>, comments: seq<CommentRow>)
    returns (first: int, second: int)
    modifies a`rating
    ensures first == second
    ensures second == a.rating == RecomputedRating(posts, comments, a.id, a.user)
  {
    a.UpdateRating(posts, comments);
    first := a.rating;
    a.UpdateRating(posts, comments);
    second := a.rating;
  }

  // ---------------------------------------------------------------------------
  // Post

  /** Number of characters `Post.preview` keeps before the ellipsis. */
  const PreviewLength: nat := 124

  /** `Post.preview` applied to the post's content. */
  function Preview(content: string): (r: string)
    ensures |content| <= PreviewLength ==> r == content
    ensures |content| > PreviewLength ==> |r| == PreviewLength + 3 && r[PreviewLength..] == "..."
    ensures |r| <= PreviewLength + 3
    ensures r[..if |content| < PreviewLength then |content| else PreviewLength]
         == content[..if |content| < PreviewLength then |content| else PreviewLength]
  {
    if |content| > PreviewLength then content[..PreviewLength] + "..." else content
  }

  /** Previewing a preview changes nothing. */
  lemma PreviewIdempotent(content: string)
    ensures Preview(Preview(content)) == Preview(content)
  {
    var r := Preview(content);
    if |content| > PreviewLength {
      assert r[..PreviewLength] == content[..PreviewLength];
      assert r == r[..PreviewLength] + "...";
    }
  }

  class Post {
    const id: PostId
    const author: AuthorId
    var postType: PostType
    const createdAt: Time
    var title: string
    var content: string
    var rating: int

    constructor (id: PostId, author: AuthorId, postType: PostType, createdAt: Time, title: string, content: string)
      ensures Row() == PostRow(id, author, postType, createdAt, title, content, 0)
    {
      this.id := id;
      this.author := author;
      this.postType := postType;
      this.createdAt := createdAt;
      this.title := title;
      this.content := content;
      rating := 0;
    }

    /** The row this object saves to the post table. */
    function Row(): PostRow
      reads this
    {
      PostRow(id, author, postType, createdAt, title, content, rating)
    }

    method Like()
      modifies this`rating
      ensures rating == old(rating) + 1
    {
      rating := rating + 1;
    }

    method Dislike()
      modifies this`rating
      ensures rating == old(rating) - 1
    {
      rating := rating - 1;
    }
  }

  /** A like followed by a dislike restores the post row. */
  method PostLikeThenDislike(p: Post)
    modifies p`rating
    ensures p.Row() == old(p.Row())
  {
    p.Like();
    p.Dislike();
  }

  // ---------------------------------------------------------------------------
  // Comment

  class Comment {
    const id: CommentId
    const post: PostId
    const user: UserId
    var text: string
    const createdAt: Time
    var rating: int

    constructor (id: CommentId, post: PostId, user: UserId, text: string, createdAt: Time)
      ensures Row() == CommentRow(id, post, user, text, createdAt, 0)
    {
      this.id := id;
      this.post := post;
      this.user := user;
      this.text := text;
      this.createdAt := createdAt;
      rating := 0;
    }

    function Row(): CommentRow
      reads this
    {
      CommentRow(id, post, user, text, createdAt, rating)
    }

    method Like()
      modifies this`rating
      ensures rating == old(rating) + 1
    {
      rating := rating + 1;
    }

    /** `Comment.dislike` as the source has it: it raises the rating too. */
    method Dislike()
      modifies this`rating
      ensures rating == old(rating) + 1
    {
      rating := rating + 1;
    }

    /** What `Comment.dislike` is meant to do, by analogy with `Post.dislike`. */
    method IntendedDislike()
      modifies this`rating
      ensures rating == old(rating) - 1
    {
      rating := rating - 1;
    }
  }

  /** With the dislike as written, a like and a dislike add 2 instead of cancelling. */
  method CommentLikeThenDislike(c: Comment)
    modifies c`rating
    ensures c.rating == old(c.rating) + 2
    ensures c.Row() != old(c.Row())
  {
    c.Like();
    c.Dislike();
  }

  /** With the intended dislike, a like and a dislike cancel. */
  method CommentLikeThenIntendedDislike(c: Comment)
    modifies c`rating
    ensures c.Row() == old(c.Row())
  {
    c.Like();
    c.IntendedDislike();
  }

  // ---------------------------------------------------------------------------
  // PostCategory

  /** Number of join rows for the pair (post, category). */
  function LinkCount(links: seq<PostCategoryRow>, post: PostId, category: CategoryId): nat
    decreases |links|
  {
    if links == [] then 0
    else LinkCount(links[..|links| - 1], post, category)
         + (if links[|links| - 1] == PostCategoryRow(post, category) then 1 else 0)
  }

  /** `PostCategory.objects.create`: a plain insert; a pair already present gets a second row. */
  function CreateLink(links: seq<PostCategoryRow>, post: PostId, category: CategoryId): (r: seq<PostCategoryRow>)
    ensures LinkCount(r, post, category) == LinkCount(links, post, category) + 1
    ensures forall p: PostId, c: CategoryId :: (p, c) != (post, category) ==> LinkCount(r, p, c) == LinkCount(links, p, c)
  {
    var r := links + [PostCategoryRow(post, category)];
    assert r[..|r| - 1] == links;
    r
  }
}
