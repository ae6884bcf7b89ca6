/** The post query both digest jobs run: the distinct posts linked to at least
    one of a set of categories, created inside a time window, optionally of the
    news type only, ordered newest first (`.distinct().order_by('-created_at')`). */
module PostSelection {
  import opened Common
  import opened NewsModels

  /** `created_at >= from`, `created_at <= until` when an upper bound is given,
      and `post_type == 'NW'` when `newsOnly` holds. */
  datatype Window = Window(from: Time, until: Option<Time>, newsOnly: bool)

  predicate InWindow(p: PostRow, w: Window)
  {
    && w.from <= p.createdAt
    && (w.until.Some? ==> p.createdAt <= w.until.value)
    && (w.newsOnly ==> p.postType == News)
  }

  /** `categories__in=cats`: some join row links the post to one of `cats`. */
  predicate LinkedToAny(links: seq<PostCategoryRow>, post: PostId, cats: set<CategoryId>)
  {
    exists l :: l in links && l.post == post && l.category in cats
  }

  predicate Qualifies(p: PostRow, links: seq<PostCategoryRow>, cats: set<CategoryId>, w: Window)
  {
    InWindow(p, w) && LinkedToAny(links, p.id, cats)
  }

  predicate NewestFirst(s: seq<PostRow>)
  {
    forall i, j :: 0 <= i < j < |s| ==> s[i].createdAt >= s[j].createdAt
  }

  predicate Distinct(s: seq<PostRow>)
  {
    forall i, j :: 0 <= i < j < |s| ==> s[i] != s[j]
  }

  /** Put `p` before the first post that is strictly older. */
  function InsertNewest(s: seq<PostRow>, p: PostRow): (r: seq<PostRow>)
    ensures |r| == |s| + 1
    ensures forall x :: x in r <==> x in s || x == p
    decreases |s|
  {
    if s == [] || p.createdAt > s[0].createdAt then [p] + s
    else
      var tail := InsertNewest(s[1..], p);
      assert forall x :: x in s <==> x == s[0] || x in s[1..];
      [s[0]] + tail
  }

  lemma {:induction false} InsertNewestKeepsOrder(s: seq<PostRow>, p: PostRow)
    requires NewestFirst(s)
    ensures NewestFirst(InsertNewest(s, p))
    decreases |s|
  {
    var r := InsertNewest(s, p);
    if s == [] {
    } else if p.createdAt > s[0].createdAt {
      assert r == [p] + s;
      forall i, j | 0 <= i < j < |r| ensures r[i].createdAt >= r[j].createdAt {
        if i > 0 {
          assert r[i] == s[i - 1] && r[j] == s[j - 1];
        } else {
          assert r[j] == s[j - 1];
        }
      }
    } else {
      var tail := InsertNewest(s[1..], p);
      assert r == [s[0]] + tail;
      InsertNewestKeepsOrder(s[1..], p);
      forall i, j | 0 <= i < j < |r| ensures r[i].createdAt >= r[j].createdAt {
        if i > 0 {
          assert r[i] == tail[i - 1] && r[j] == tail[j - 1];
        } else {
          var x := tail[j - 1];
          assert r[j] == x && x in tail;
          if x != p {
            var k :| 0 <= k < |s[1..]| && s[1..][k] == x;
            assert s[k + 1] == x;
          }
        }
      }
    }
  }

  lemma {:induction false} InsertNewestKeepsDistinct(s: seq<PostRow>, p: PostRow)
    requires Distinct(s) && p !in s
    ensures Distinct(InsertNewest(s, p))
    decreases |s|
  {
    var r := InsertNewest(s, p);
    if s == [] {
    } else if p.createdAt > s[0].createdAt {
      assert r == [p] + s;
      forall i, j | 0 <= i < j < |r| ensures r[i] != r[j] {
        if i > 0 {
          assert r[i] == s[i - 1] && r[j] == s[j - 1];
        } else {
          assert r[j] == s[j - 1];
        }
      }
    } else {
      var tail := InsertNewest(s[1..], p);
      assert r == [s[0]] + tail;
      assert p !in s[1..];
      InsertNewestKeepsDistinct(s[1..], p);
      forall i, j | 0 <= i < j < |r| ensures r[i] != r[j] {
        if i > 0 {
          assert r[i] == tail[i - 1] && r[j] == tail[j - 1];
        } else {
          var x := tail[j - 1];
          assert r[j] == x && x in tail;
        }
      }
    }
  }

  /** The query result. Posts of equal age keep their table order. */
  function Selection(posts: seq<PostRow>, links: seq<PostCategoryRow>, cats: set<CategoryId>, w: Window): (r: seq<PostRow>)
    ensures NewestFirst(r) && Distinct(r)
    ensures forall p :: p in r <==> p in posts && Qualifies(p, links, cats, w)
    ensures |r| <= |posts|
    decreases |posts|
  {
    if posts == [] then []
    else
      var p := posts[|posts| - 1];
      var prev := Selection(posts[..|posts| - 1], links, cats, w);
      assert forall x :: x in posts <==> x in posts[..|posts| - 1] || x == p;
      if Qualifies(p, links, cats, w) && p !in prev then
        InsertNewestKeepsOrder(prev, p);
        InsertNewestKeepsDistinct(prev, p);
        InsertNewest(prev, p)
      else prev
  }

  /** A second join row for a pair already linked does not change any selection:
      the query is `distinct`. */
  lemma {:induction false} SelectionIgnoresDuplicateLink(posts: seq<PostRow>, links: seq<PostCategoryRow>, l: PostCategoryRow, cats: set<CategoryId>, w: Window)
    requires l in links
    ensures Selection(posts, links + [l], cats, w) == Selection(posts, links, cats, w)
    decreases |posts|
  {
    if posts != [] {
      var p := posts[|posts| - 1];
      SelectionIgnoresDuplicateLink(posts[..|posts| - 1], links, l, cats, w);
      assert LinkedToAny(links + [l], p.id, cats) == LinkedToAny(links, p.id, cats) by {
        if LinkedToAny(links + [l], p.id, cats) {
          var m :| m in links + [l] && m.post == p.id && m.category in cats;
          assert m in links;
        }
      }
    }
  }
}
