/** The two background tasks of the news portal: the weekly digest
    (`send_weekly_digest`) and the fan-out of a new post to the subscribers of
    its categories (`send_new_post_notifications`). Mail rendering and
    transport are replaced by `attemptOk` / `sendOk`: the k-th message a run
    tries to send is accepted exactly when the oracle says so for k. */
module Tasks {
  import opened Common
  import opened NewsModels
  import opened Subscriptions
  import opened PostSelection
  import opened Digests

  // ---------------------------------------------------------------------------
  // send_weekly_digest

  /** The subscriber query's filter: not unsubscribed, and the user's email
      column is not NULL (an empty address passes). */
  predicate Considered(s: Subscriber)
    ensures Considered(s) ==> s.user.email.Some?
    ensures s.unsubscribedAt.None? && s.user.email == Some("") ==> Considered(s)
  {
    s.unsubscribedAt.None? && s.user.email.Some?
  }

  /** Posts of type news created at or after one week before `now`; no upper bound. */
  function WeeklyWindow(now: Time): Window
  {
    Window(now - Week, None, true)
  }

  /** What the weekly task sends to one subscriber, if it sends anything. */
  function WeeklyPlan(s: Subscriber, posts: seq<PostRow>, links: seq<PostCategoryRow>, now: Time): (r: Option<Delivery>)
    ensures r.Some? ==> Considered(s) && s.categories != {} && r.value.to == s.user.email.value && r.value.posts != []
    ensures !Considered(s) || s.categories == {} ==> r.None?
  {
    if !Considered(s) || s.categories == {} then None
    else
      var selected := Selection(posts, links, s.categories, WeeklyWindow(now));
      if selected == [] then None else Some(Delivery(s.user.email.value, selected))
  }

  /** A subscriber gets a digest exactly when it passes the subscriber filter,
      has categories, and some news post of the last week is linked to one of
      them; the digest lists exactly those posts, once each, newest first. */
  lemma WeeklyPlanMeaning(s: Subscriber, posts: seq<PostRow>, links: seq<PostCategoryRow>, now: Time)
    ensures WeeklyPlan(s, posts, links, now).Some? <==>
              && Considered(s)
              && s.categories != {}
              && exists p :: p in posts && Qualifies(p, links, s.categories, WeeklyWindow(now))
    ensures WeeklyPlan(s, posts, links, now).Some? ==>
              var d := WeeklyPlan(s, posts, links, now).value;
              && d.to == s.user.email.value
              && d.posts != []
              && NewestFirst(d.posts) && Distinct(d.posts)
              && forall p :: p in d.posts <==> p in posts && Qualifies(p, links, s.categories, WeeklyWindow(now))
  {
    if Considered(s) && s.categories != {} {
      var selected := Selection(posts, links, s.categories, WeeklyWindow(now));
      if selected != [] {
        assert selected[0] in selected;
      }
    }
  }

  function WeeklyPlanner(posts: seq<PostRow>, links: seq<PostCategoryRow>, now: Time): Subscriber -> Option<Delivery>
  {
    s => WeeklyPlan(s, posts, links, now)
  }

  /** Subscribers that pass the subscriber query's filter. */
  function CountConsidered(rows: seq<Subscriber>): nat
    decreases |rows|
  {
    if rows == [] then 0
    else CountConsidered(rows[..|rows| - 1]) + (if Considered(rows[|rows| - 1]) then 1 else 0)
  }

  /** The weekly task sends at most one message per considered subscriber. */
  lemma {:induction false} WeeklyAttemptsBounded(rows: seq<Subscriber>, posts: seq<PostRow>, links: seq<PostCategoryRow>, now: Time, attemptOk: nat -> bool)
    ensures |Attempts(rows, WeeklyPlanner(posts, links, now), attemptOk)| <= CountConsidered(rows)
    decreases |rows|
  {
    AttemptsCountPlanned(rows, WeeklyPlanner(posts, links, now), attemptOk);
    PlannedAreConsidered(rows, posts, links, now);
  }

  lemma {:induction false} PlannedAreConsidered(rows: seq<Subscriber>, posts: seq<PostRow>, links: seq<PostCategoryRow>, now: Time)
    ensures CountPlanned(rows, WeeklyPlanner(posts, links, now)) <= CountConsidered(rows)
    decreases |rows|
  {
    if rows != [] {
      PlannedAreConsidered(rows[..|rows| - 1], posts, links, now);
    }
  }

  /** `send_weekly_digest`: one pass over the subscribers with the two counters. */
  method SendWeeklyDigest(subscribers: seq<Subscriber>, posts: seq<PostRow>, links: seq<PostCategoryRow>, now: Time, attemptOk: nat -> bool)
    returns (attempts: seq<DigestAttempt>, totalSent: nat, errors: nat)
    ensures attempts == Attempts(subscribers, WeeklyPlanner(posts, links, now), attemptOk)
    ensures totalSent == CountSent(attempts) && totalSent + errors == |attempts|
    ensures totalSent + errors <= CountConsidered(subscribers)
  {
    var weekAgo := now - Week;
    attempts, totalSent, errors := [], 0, 0;
    for i := 0 to |subscribers|
      invariant attempts == Attempts(subscribers[..i], WeeklyPlanner(posts, links, now), attemptOk)
      invariant totalSent == CountSent(attempts) && totalSent + errors == |attempts|
    {
      AttemptsStep(subscribers, i, WeeklyPlanner(posts, links, now), attemptOk);
      var s := subscribers[i];
      if !(s.unsubscribedAt.None? && s.user.email.Some?) {
        continue;
      }
      if s.categories == {} {
        continue;
      }
      var selected := Selection(posts, links, s.categories, Window(weekAgo, None, true));
      if selected == [] {
        continue;
      }
      var ok := attemptOk(|attempts|);
      CountSentStep(attempts, DigestAttempt(i, s.user.email.value, selected, ok));
      attempts := attempts + [DigestAttempt(i, s.user.email.value, selected, ok)];
      if ok {
        totalSent := totalSent + 1;
      } else {
        errors := errors + 1;
      }
    }
    assert subscribers[..|subscribers|] == subscribers;
    WeeklyAttemptsBounded(subscribers, posts, links, now, attemptOk);
  }

  // ---------------------------------------------------------------------------
  // send_new_post_notifications

  /** `Post.objects.get(id=...)`: one row, no row, or more than one row. */
  datatype Lookup = Found(post: PostRow) | NotFound | MultipleFound

  function GetPost(posts: seq<PostRow>, id: PostId): (r: Lookup)
    ensures r.NotFound? <==> forall q :: q in posts ==> q.id != id
    ensures r.Found? ==> r.post in posts && r.post.id == id
    ensures r.Found? <==> (exists i :: 0 <= i < |posts| && posts[i].id == id)
                          && forall i, j :: 0 <= i < j < |posts| && posts[i].id == id ==> posts[j].id != id
    ensures r.MultipleFound? <==> exists i, j :: 0 <= i < j < |posts| && posts[i].id == id && posts[j].id == id
    decreases |posts|
  {
    if posts == [] then NotFound
    else
      var init := posts[..|posts| - 1];
      var last := posts[|posts| - 1];
      var prev := GetPost(init, id);
      assert forall q :: q in posts <==> q in init || q == last;
      assert forall i :: 0 <= i < |init| ==> posts[i] == init[i];
      if last.id != id then prev
      else if prev.NotFound? then Found(last)
      else
        assert exists i :: 0 <= i < |init| && init[i].id == id;
        MultipleFound
  }

  /** `post.categories.all()`: the category of every join row of the post. */
  function PostCategoryIds(links: seq<PostCategoryRow>, post: PostId): (r: seq<CategoryId>)
    ensures forall c :: c in r <==> PostCategoryRow(post, c) in links
    decreases |links|
  {
    if links == [] then []
    else
      var last := links[|links| - 1];
      var prev := PostCategoryIds(links[..|links| - 1], post);
      assert forall l :: l in links <==> l in links[..|links| - 1] || l == last;
      prev + (if last.post == post then [last.category] else [])
  }

  /** The union of the subscriber sets of `cats`. */
  function Recipients(catSubs: CategorySubscribers, cats: seq<CategoryId>): (r: set<User>)
    ensures forall u :: u in r <==> exists c :: c in cats && u in SubscribersOf(catSubs, c)
    decreases |cats|
  {
    if cats == [] then {}
    else
      var prev := Recipients(catSubs, cats[..|cats| - 1]);
      assert forall c :: c in cats <==> c in cats[..|cats| - 1] || c == cats[|cats| - 1];
      prev + SubscribersOf(catSubs, cats[|cats| - 1])
  }

  /** The first loop of `send_new_post_notifications`: grow a set with the
      subscribers of each category in turn. */
  method CollectRecipients(catSubs: CategorySubscribers, cats: seq<CategoryId>) returns (users: set<User>)
    ensures users == Recipients(catSubs, cats)
  {
    users := {};
    for i := 0 to |cats|
      invariant users == Recipients(catSubs, cats[..i])
    {
      assert cats[..i + 1][..i] == cats[..i];
      users := users + SubscribersOf(catSubs, cats[i]);
    }
    assert cats[..|cats|] == cats;
  }

  /** Recipients who are mailed: those whose address is not empty. */
  function MailedRecipients(catSubs: CategorySubscribers, cats: seq<CategoryId>): (r: set<User>)
    ensures r <= Recipients(catSubs, cats)
    ensures forall u :: u in r ==> Truthy(u.email)
  {
    set u | u in Recipients(catSubs, cats) && Truthy(u.email)
  }

  /** A user is mailed exactly when subscribed to one of the categories and
      holding a non-empty address. */
  lemma MailedRecipientsMeaning(catSubs: CategorySubscribers, cats: seq<CategoryId>, u: User)
    ensures u in MailedRecipients(catSubs, cats) <==> Truthy(u.email) && exists c :: c in cats && u in SubscribersOf(catSubs, c)
  {
  }

  /** How the fan-out ended: every recipient handled, no such post, the lookup
      found several rows, or a send raised and ended the whole task. */
  datatype FanOutEnd = Completed | PostMissing | LookupFailed | Aborted

  /** `send_new_post_notifications`. `delivered` lists the users whose message
      was accepted, in sending order. The set of recipients is walked in an
      unspecified order. */
  method SendNewPostNotifications(postId: PostId, posts: seq<PostRow>, links: seq<PostCategoryRow>, catSubs: CategorySubscribers, sendOk: nat -> bool)
    returns (delivered: seq<User>, end: FanOutEnd)
    ensures end == PostMissing <==> GetPost(posts, postId).NotFound?
    ensures end == LookupFailed <==> GetPost(posts, postId).MultipleFound?
    ensures !GetPost(posts, postId).Found? ==> delivered == []
    ensures forall i, j :: 0 <= i < j < |delivered| ==> delivered[i] != delivered[j]
    ensures forall k :: 0 <= k < |delivered| ==> sendOk(k)
    ensures GetPost(posts, postId).Found? ==>
              var mailed := MailedRecipients(catSubs, PostCategoryIds(links, postId));
              && (forall u :: u in delivered ==> u in mailed)
              && (end == Completed ==> forall u :: u in mailed ==> u in delivered)
              && (end == Aborted ==> !sendOk(|delivered|) && exists u :: u in mailed && u !in delivered)
              && (end == Completed || end == Aborted)
  {
    delivered := [];
    var lookup := GetPost(posts, postId);
    if lookup.NotFound? {
      return delivered, PostMissing;
    }
    if lookup.MultipleFound? {
      return delivered, LookupFailed;
    }
    var post := lookup.post;
    var cats := PostCategoryIds(links, post.id);
    var users := CollectRecipients(catSubs, cats);
    delivered, end := MailEach(users, sendOk);
  }

  /** The second loop of `send_new_post_notifications`: mail every user with a
      non-empty address, once each; the first failed send ends the loop. */
  method MailEach(users: set<User>, sendOk: nat -> bool) returns (delivered: seq<User>, end: FanOutEnd)
    ensures forall i, j :: 0 <= i < j < |delivered| ==> delivered[i] != delivered[j]
    ensures forall k :: 0 <= k < |delivered| ==> sendOk(k)
    ensures forall u :: u in delivered ==> u in users && Truthy(u.email)
    ensures end == Completed || end == Aborted
    ensures end == Completed ==> forall u :: u in users && Truthy(u.email) ==> u in delivered
    ensures end == Aborted ==> !sendOk(|delivered|) && exists u :: u in users && Truthy(u.email) && u !in delivered
  {
    delivered := [];
    var remaining := users;
    while remaining != {}
      invariant remaining <= users
      invariant forall u :: u in delivered ==> u in users && Truthy(u.email) && u !in remaining
      invariant forall u :: u in users && Truthy(u.email) && u !in remaining ==> u in delivered
      invariant forall i, j :: 0 <= i < j < |delivered| ==> delivered[i] != delivered[j]
      invariant forall k :: 0 <= k < |delivered| ==> sendOk(k)
      decreases remaining
    {
      var u :| u in remaining;
      remaining := remaining - {u};
      if Truthy(u.email) {
        if !sendOk(|delivered|) {
          return delivered, Aborted;
        }
        delivered := delivered + [u];
      }
    }
    end := Completed;
  }
}
