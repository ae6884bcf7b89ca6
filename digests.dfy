/** What both digest loops have in common: walk the subscriber rows in order,
    skip the rows that do not reach the send step, and make one numbered send
    attempt for each row that does. Which rows reach the send step, and with
    which posts, is each loop's own `plan`. */
module Digests {
  import opened Common
  import opened NewsModels
  import opened Subscriptions

  /** What a subscriber that reaches the send step is sent: one message to one
      address listing the selected posts. */
  datatype Delivery = Delivery(to: string, posts: seq<PostRow>)

  /** One send attempt: the subscriber row it was for, what was sent and whether
      the mail transport accepted it. */
  datatype DigestAttempt = DigestAttempt(row: nat, to: string, posts: seq<PostRow>, ok: bool)

  /** The send attempts of one run over `rows`. The k-th attempt of the run
      succeeds exactly when `attemptOk(k)`. */
  function Attempts(rows: seq<Subscriber>, plan: Subscriber -> Option<Delivery>, attemptOk: nat -> bool): (r: seq<DigestAttempt>)
    ensures |r| <= |rows|
    decreases |rows|
  {
    if rows == [] then []
    else
      var prev := Attempts(rows[..|rows| - 1], plan, attemptOk);
      match plan(rows[|rows| - 1])
      case None => prev
      case Some(d) => prev + [DigestAttempt(|rows| - 1, d.to, d.posts, attemptOk(|prev|))]
  }

  /** Attempts follow the rows in order, one per row that reaches the send step
      and none for the others; the k-th attempt carries that row's message and
      the oracle's k-th answer. */
  lemma {:induction false} AttemptsShape(rows: seq<Subscriber>, plan: Subscriber -> Option<Delivery>, attemptOk: nat -> bool)
    ensures var r := Attempts(rows, plan, attemptOk);
            && |r| <= |rows|
            && (forall k :: 0 <= k < |r| ==>
                  && r[k].row < |rows|
                  && r[k].ok == attemptOk(k)
                  && plan(rows[r[k].row]) == Some(Delivery(r[k].to, r[k].posts)))
            && (forall k, l :: 0 <= k < l < |r| ==> r[k].row < r[l].row)
            && (forall i :: 0 <= i < |rows| && plan(rows[i]).Some? ==> exists k :: 0 <= k < |r| && r[k].row == i)
    decreases |rows|
  {
    if rows != [] {
      var front := rows[..|rows| - 1];
      AttemptsShape(front, plan, attemptOk);
      assert forall i :: 0 <= i < |front| ==> rows[i] == front[i];
    }
  }

  /** Number of accepted sends (`total_sent`). */
  function CountSent(attempts: seq<DigestAttempt>): (n: nat)
    ensures n <= |attempts|
    decreases |attempts|
  {
    if attempts == [] then 0
    else CountSent(attempts[..|attempts| - 1]) + (if attempts[|attempts| - 1].ok then 1 else 0)
  }

  /** One more row adds one attempt when it reaches the send step and none otherwise. */
  lemma AttemptsStep(rows: seq<Subscriber>, i: nat, plan: Subscriber -> Option<Delivery>, attemptOk: nat -> bool)
    requires i < |rows|
    ensures var prev := Attempts(rows[..i], plan, attemptOk);
            Attempts(rows[..i + 1], plan, attemptOk)
            == match plan(rows[i])
               case None => prev
               case Some(d) => prev + [DigestAttempt(i, d.to, d.posts, attemptOk(|prev|))]
  {
    assert rows[..i + 1][..i] == rows[..i];
  }

  lemma CountSentStep(attempts: seq<DigestAttempt>, a: DigestAttempt)
    ensures CountSent(attempts + [a]) == CountSent(attempts) + (if a.ok then 1 else 0)
  {
    assert (attempts + [a])[..|attempts|] == attempts;
  }

  /** Rows that reach the send step. */
  function CountPlanned(rows: seq<Subscriber>, plan: Subscriber -> Option<Delivery>): nat
    decreases |rows|
  {
    if rows == [] then 0
    else CountPlanned(rows[..|rows| - 1], plan) + (if plan(rows[|rows| - 1]).Some? then 1 else 0)
  }

  /** Every row that reaches the send step is attempted exactly once. */
  lemma {:induction false} AttemptsCountPlanned(rows: seq<Subscriber>, plan: Subscriber -> Option<Delivery>, attemptOk: nat -> bool)
    ensures |Attempts(rows, plan, attemptOk)| == CountPlanned(rows, plan)
    decreases |rows|
  {
    if rows != [] {
      AttemptsCountPlanned(rows[..|rows| - 1], plan, attemptOk);
    }
  }
}
