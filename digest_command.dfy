/** The `send_weekly_digest` management command: a second digest loop that
    reads every subscriber, uses the user's `subscribed_categories`, selects
    posts of any type in the closed window [now - 7 days, now], and writes the
    watermark `last_digest_sent := now` back to a subscriber row after a send
    the transport accepted. */
module DigestCommand {
  import opened Common
  import opened NewsModels
  import opened Subscriptions
  import opened PostSelection
  import opened Digests

  /** Posts of any type created between one week before `now` and `now`. */
  function CommandWindow(now: Time): Window
  {
    Window(now - Week, Some(now), false)
  }

  /** What the command sends to one subscriber, if anything. */
  function CommandPlan(s: Subscriber, posts: seq<PostRow>, links: seq<PostCategoryRow>, catSubs: CategorySubscribers, now: Time): (r: Option<Delivery>)
    ensures r.Some? ==> Truthy(s.user.email) && SubscribedCategories(catSubs, s.user) != {}
                        && r.value.to == s.user.email.value && r.value.posts != []
    ensures !Truthy(s.user.email) ==> r.None?
  {
    if !Truthy(s.user.email) then None
    else
      var cats := SubscribedCategories(catSubs, s.user);
      if cats == {} then None
      else
        var selected := Selection(posts, links, cats, CommandWindow(now));
        if selected == [] then None else Some(Delivery(s.user.email.value, selected))
  }

  function CommandPlanner(posts: seq<PostRow>, links: seq<PostCategoryRow>, catSubs: CategorySubscribers, now: Time): Subscriber -> Option<Delivery>
  {
    s => CommandPlan(s, posts, links, catSubs, now)
  }

  /** A subscriber gets a digest exactly when its user has a non-empty address,
      is subscribed to some category, and some post created in the window is
      linked to one of those categories. Whether it was unsubscribed, and its
      watermark, play no part. */
  lemma CommandPlanMeaning(s: Subscriber, posts: seq<PostRow>, links: seq<PostCategoryRow>, catSubs: CategorySubscribers, now: Time)
    ensures CommandPlan(s, posts, links, catSubs, now).Some? <==>
              && Truthy(s.user.email)
              && SubscribedCategories(catSubs, s.user) != {}
              && exists p :: p in posts && Qualifies(p, links, SubscribedCategories(catSubs, s.user), CommandWindow(now))
    ensures CommandPlan(s, posts, links, catSubs, now).Some? ==>
              var d := CommandPlan(s, posts, links, catSubs, now).value;
              && d.to == s.user.email.value
              && NewestFirst(d.posts) && Distinct(d.posts)
              && forall p :: p in d.posts <==> p in posts && Qualifies(p, links, SubscribedCategories(catSubs, s.user), CommandWindow(now))
  {
    if Truthy(s.user.email) {
      var cats := SubscribedCategories(catSubs, s.user);
      var selected := Selection(posts, links, cats, CommandWindow(now));
      if cats != {} && selected != [] {
        assert selected[0] in selected;
      }
    }
  }

  /** The outcome of the attempt made for subscriber row `i`, if one was made. */
  function OutcomeFor(attempts: seq<DigestAttempt>, i: nat): (r: Option<bool>)
    ensures r.None? <==> forall k :: 0 <= k < |attempts| ==> attempts[k].row != i
    ensures r.Some? ==> exists k :: 0 <= k < |attempts| && attempts[k].row == i && attempts[k].ok == r.value
    decreases |attempts|
  {
    if attempts == [] then None
    else
      var last := attempts[|attempts| - 1];
      if last.row == i then Some(last.ok)
      else
        var prev := OutcomeFor(attempts[..|attempts| - 1], i);
        assert forall k :: 0 <= k < |attempts| - 1 ==> attempts[k] == attempts[..|attempts| - 1][k];
        prev
  }

  /** Appending an attempt settles the outcome of its own row and of no other. */
  lemma OutcomeForAppend(attempts: seq<DigestAttempt>, a: DigestAttempt)
    ensures OutcomeFor(attempts + [a], a.row) == Some(a.ok)
    ensures forall j :: j != a.row ==> OutcomeFor(attempts + [a], j) == OutcomeFor(attempts, j)
  {
    assert (attempts + [a])[..|attempts|] == attempts;
  }

  /** Recording one more attempt, for a row not attempted yet, saves that row
      and leaves the table otherwise as it was. */
  lemma WatermarkedAppend(rows: seq<Subscriber>, attempts: seq<DigestAttempt>, a: DigestAttempt, now: Time)
    requires a.row < |rows|
    requires OutcomeFor(attempts, a.row).None?
    ensures Watermarked(rows, attempts, now)[a.row] == rows[a.row]
    ensures Watermarked(rows, attempts + [a], now)
         == Watermarked(rows, attempts, now)[a.row := Saved(rows[a.row], Some(a.ok), now)]
  {
    OutcomeForAppend(attempts, a);
  }

  /** The row as saved after its attempt: the watermark moves to `now` only
      when the send was accepted. */
  function Saved(s: Subscriber, outcome: Option<bool>, now: Time): (r: Subscriber)
    ensures r.(lastDigestSent := s.lastDigestSent) == s
    ensures outcome == Some(true) ==> r.lastDigestSent == Some(now)
    ensures outcome != Some(true) ==> r == s
  {
    if outcome == Some(true) then s.(lastDigestSent := Some(now)) else s
  }

  /** The subscriber table after a run whose attempts were `attempts`. */
  function Watermarked(rows: seq<Subscriber>, attempts: seq<DigestAttempt>, now: Time): (r: seq<Subscriber>)
    ensures |r| == |rows|
  {
    seq(|rows|, i requires 0 <= i < |rows| => Saved(rows[i], OutcomeFor(attempts, i), now))
  }

  /** The subscriber table (`Subscriber.objects`), whose rows `save()` writes back. */
  class SubscriberTable {
    var rows: seq<Subscriber>

    constructor (rows: seq<Subscriber>)
      ensures this.rows == rows
    {
      this.rows := rows;
    }
  }

  /** `Command.handle`. The returned attempts stand for the lines the command
      writes to standard output (accepted) and standard error (failed). */
  method Handle(table: SubscriberTable, posts: seq<PostRow>, links: seq<PostCategoryRow>, catSubs: CategorySubscribers, now: Time, attemptOk: nat -> bool)
    returns (attempts: seq<DigestAttempt>)
    modifies table
    ensures attempts == Attempts(old(table.rows), CommandPlanner(posts, links, catSubs, now), attemptOk)
    ensures table.rows == Watermarked(old(table.rows), attempts, now)
  {
    var rows := table.rows;
    var planner := CommandPlanner(posts, links, catSubs, now);
    attempts := [];
    assert Watermarked(rows, attempts, now) == rows;
    for i := 0 to |rows|
      invariant attempts == Attempts(rows[..i], planner, attemptOk)
      invariant forall k :: 0 <= k < |attempts| ==> attempts[k].row < i
      invariant table.rows == Watermarked(rows, attempts, now)
    {
      AttemptsStep(rows, i, planner, attemptOk);
      var plan := planner(rows[i]);
      if plan.Some? {
        var ok := attemptOk(|attempts|);
        var attempt := DigestAttempt(i, plan.value.to, plan.value.posts, ok);
        WatermarkedAppend(rows, attempts, attempt, now);
        attempts := attempts + [attempt];
        if ok {
          table.rows := table.rows[i := rows[i].(lastDigestSent := Some(now))];
        }
      }
    }
    assert rows[..|rows|] == rows;
  }

  /** In a run whose attempts go through the rows in increasing order, the
      outcome recorded for an attempted row is that attempt's own. */
  lemma OutcomeOfAttempt(attempts: seq<DigestAttempt>, k: nat)
    requires k < |attempts|
    requires forall k, l :: 0 <= k < l < |attempts| ==> attempts[k].row < attempts[l].row
    ensures OutcomeFor(attempts, attempts[k].row) == Some(attempts[k].ok)
  {
    var r := OutcomeFor(attempts, attempts[k].row);
    var l :| 0 <= l < |attempts| && attempts[l].row == attempts[k].row && attempts[l].ok == r.value;
    assert l == k;
  }

  /** After a run: nothing but the watermark of a row changes; it moves to `now`
      for every accepted send; it stays where it was for a failed send and for
      every row that was skipped. */
  lemma WatermarkMovesOnlyOnSuccess(rows: seq<Subscriber>, posts: seq<PostRow>, links: seq<PostCategoryRow>, catSubs: CategorySubscribers, now: Time, attemptOk: nat -> bool)
    ensures var attempts := Attempts(rows, CommandPlanner(posts, links, catSubs, now), attemptOk);
            var after := Watermarked(rows, attempts, now);
            && (forall i :: 0 <= i < |rows| ==> after[i].(lastDigestSent := rows[i].lastDigestSent) == rows[i])
            && (forall k :: 0 <= k < |attempts| ==> attempts[k].row < |rows|)
            && (forall k :: 0 <= k < |attempts| && attempts[k].ok ==> after[attempts[k].row].lastDigestSent == Some(now))
            && (forall k :: 0 <= k < |attempts| && !attempts[k].ok ==> after[attempts[k].row] == rows[attempts[k].row])
            && (forall i :: 0 <= i < |rows| && CommandPlan(rows[i], posts, links, catSubs, now).None? ==> after[i] == rows[i])
  {
    var planner := CommandPlanner(posts, links, catSubs, now);
    var attempts := Attempts(rows, planner, attemptOk);
    var after := Watermarked(rows, attempts, now);
    AttemptsShape(rows, planner, attemptOk);
    forall k | 0 <= k < |attempts|
      ensures attempts[k].ok ==> after[attempts[k].row].lastDigestSent == Some(now)
      ensures !attempts[k].ok ==> after[attempts[k].row] == rows[attempts[k].row]
    {
      OutcomeOfAttempt(attempts, k);
    }
    forall i | 0 <= i < |rows| && CommandPlan(rows[i], posts, links, catSubs, now).None?
      ensures after[i] == rows[i]
    {
      assert planner(rows[i]).None?;
      assert OutcomeFor(attempts, i).None?;
    }
  }

  /** The posts a run selects, and so every message it tries to send, do not
      depend on the subscribers' watermarks. */
  lemma {:induction false} AttemptsIgnoreWatermarks(rows: seq<Subscriber>, rows': seq<Subscriber>, posts: seq<PostRow>, links: seq<PostCategoryRow>, catSubs: CategorySubscribers, now: Time, attemptOk: nat -> bool)
    requires |rows'| == |rows|
    requires forall i :: 0 <= i < |rows| ==> rows'[i] == rows[i].(lastDigestSent := rows'[i].lastDigestSent)
    ensures Attempts(rows', CommandPlanner(posts, links, catSubs, now), attemptOk)
         == Attempts(rows, CommandPlanner(posts, links, catSubs, now), attemptOk)
    decreases |rows|
  {
    if rows != [] {
      var n := |rows| - 1;
      AttemptsIgnoreWatermarks(rows[..n], rows'[..n], posts, links, catSubs, now, attemptOk);
      assert rows'[n].user == rows[n].user;
    }
  }

  /** A second run at the same time, over the table the first run left, tries
      to send exactly the same digests again: the watermark guards nothing. */
  lemma RerunRepeatsAttempts(rows: seq<Subscriber>, posts: seq<PostRow>, links: seq<PostCategoryRow>, catSubs: CategorySubscribers, now: Time, attemptOk: nat -> bool)
    ensures var planner := CommandPlanner(posts, links, catSubs, now);
            Attempts(Watermarked(rows, Attempts(rows, planner, attemptOk), now), planner, attemptOk)
            == Attempts(rows, planner, attemptOk)
  {
    var planner := CommandPlanner(posts, links, catSubs, now);
    var after := Watermarked(rows, Attempts(rows, planner, attemptOk), now);
    AttemptsIgnoreWatermarks(rows, after, posts, links, catSubs, now, attemptOk);
  }
}
