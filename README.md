# News portal core, modelled in Dafny

This project models the core of a Django news portal (`NewsPaper`) and
proves properties of that model. It covers:

- the reputation score of an author (`Author.update_rating`);
- the post preview and the like/dislike counters of posts and comments;
- the post–category link table;
- the weekly digest Celery task (`send_weekly_digest`);
- the new-post notification fan-out (`send_new_post_notifications`);
- the `send_weekly_digest` management command, which advances each
  subscriber's `last_digest_sent` watermark after a successful send;
- the `censor` template filter;
- application start-up (`NewsPortalConfig.ready` and
  `delayed_scheduler_start`);
- the order rules of the `mc_donalds` app.

Database tables are sequences of row values. Time is an integer number of
seconds, and each run takes one `now`. The outcome of every email send and
every database connection attempt comes from an oracle, a function from
the attempt's ordinal within the run to success or failure.

Modules, one per source file or shared concept:

| module | file | models |
|---|---|---|
| `Common` | common.dfy | `Option`, `Result`, time constants, Python truthiness of an optional string |
| `NewsModels` | news_models.dfy | `NewsPaper/NewsPortal/models.py` |
| `Subscriptions` | subscriptions.dfy | users, `Subscriber`, `Category.subscribers`, and `subscribed_categories`, assumed to be its reverse |
| `PostSelection` | post_selection.dfy | the post query shared by the digest task and the command (category filter, time window, `distinct()`, `order_by('-created_at')`) |
| `Digests` | digests.dfy | the per-subscriber send loop both digest runs share: which rows are attempted, in which order, with which outcome |
| `Tasks` | tasks.dfy | `NewsPaper/NewsPortal/tasks.py` |
| `DigestCommand` | digest_command.dfy | `NewsPaper/NewsPortal/management/commands/send_weekly_digest.py` |
| `NewsFilters` | news_filters.dfy | `NewsPaper/NewsPortal/templatetags/news_filters.py` |
| `PortalStartup` | startup.dfy | `NewsPaper/NewsPortal/apps.py` |
| `McDonalds` | mc_donalds.dfy | `NewsPaper/mc_donalds/models.py` |

Stateful code is written imperatively:

- `Author`, `Post`, `Comment`, `ProductOrder` and `Order` are classes whose
  methods update fields.
- The digest command writes a `SubscriberTable`.
- The send loops and the retry loop are methods with loop invariants.

The send loops and the digest command are proved against specification
functions, and the properties of those functions are proved as lemmas. The
other methods state their effect directly in their contracts:
`SendNewPostNotifications`, `DelayedSchedulerStart`, `FinishOrder`, and the
like and dislike methods.

Some facts about the source that the model keeps:

- A notification goes to every subscriber of the post's categories who has
  a non-empty email, the post's own author included
  (NewsPaper/NewsPortal/tasks.py:81-85).
- A failed send is only logged. Nothing is queued for a later retry.
- Nothing limits how many posts an author creates.
- The command's window is a fixed 7 days before `now`
  (NewsPaper/NewsPortal/management/commands/send_weekly_digest.py:15). It
  does not depend on `last_digest_sent`.
- `PostCategory` puts no uniqueness constraint on its pairs
  (NewsPaper/NewsPortal/models.py:72-82).
- The watermark is set to the run's `now`. If the clock goes back, the
  watermark goes back too.

## Model

| member | source | states |
|---|---|---|
| NewsModels.SumAggregate | NewsPaper/NewsPortal/models.py:12-14 | a SQL `Sum` aggregate is NULL (`None`) exactly when no row matches |
| NewsModels.OrZeroSum | NewsPaper/NewsPortal/models.py:12-26 | `aggregate(...) or 0` equals the plain sum of the ratings, and is 0 for no rows |
| NewsModels.PostRatings | NewsPaper/NewsPortal/models.py:12-14 | the author's post ratings are empty iff the author has no post |
| NewsModels.CommentRatingsBy | NewsPaper/NewsPortal/models.py:17-19 | the ratings of the user's own comments are empty iff the user wrote no comment |
| NewsModels.AuthorPostIds | NewsPaper/NewsPortal/models.py:21 | the id set holds exactly the ids of the author's posts |
| NewsModels.CommentRatingsOn | NewsPaper/NewsPortal/models.py:22-26 | comments on the author's posts by other users are empty iff every comment is on another post or by the author's own user |
| NewsModels.RecomputedRating | NewsPaper/NewsPortal/models.py:12-27 | with the `or 0` fallbacks, the rating is 3 × the sum of the post ratings + the sum of the own comment ratings + the sum of other users' comment ratings on own posts, each sum 0 for no rows |
| NewsModels.Author.UpdateRating | NewsPaper/NewsPortal/models.py:10-28 | only `rating` changes, and it becomes 3 × post ratings + own comment ratings + other users' comment ratings on own posts |
| NewsModels.UpdateRatingTwice | NewsPaper/NewsPortal/models.py:10-28 | a second `update_rating` with no writes in between stores the same rating as the first, the recomputed one |
| NewsModels.InactiveAuthorRatesZero | NewsPaper/NewsPortal/models.py:12-26 | an author with no posts whose user wrote no comments rates 0, because every empty aggregate counts as 0 |
| NewsModels.RatingWithOneMoreComment | NewsPaper/NewsPortal/models.py:17-26 | one more comment changes the rating by its rating exactly when it is by the author's user or on one of the author's posts, and by 0 otherwise |
| NewsModels.OwnCommentOnOwnPostCountedOnce | NewsPaper/NewsPortal/models.py:17-26 | the author's own comment on their own post adds its rating once, not twice |
| NewsModels.WorkedRatingExample | NewsPaper/NewsPortal/models.py:10-27 | a concrete instance: another author's post is ignored and the own comment on an own post counts once (3·1 + 2 − 1 = 4) |
| NewsModels.Preview | NewsPaper/NewsPortal/models.py:57-61 | content of at most 124 characters is returned unchanged; longer content gives its first 124 characters followed by "...", 127 in all |
| NewsModels.PreviewIdempotent | NewsPaper/NewsPortal/models.py:57-61 | previewing a preview changes nothing |
| NewsModels.Post.Like | NewsPaper/NewsPortal/models.py:63-65 | the post's rating rises by exactly 1; nothing else changes |
| NewsModels.Post.Dislike | NewsPaper/NewsPortal/models.py:67-69 | the post's rating falls by exactly 1; nothing else changes |
| NewsModels.PostLikeThenDislike | NewsPaper/NewsPortal/models.py:63-69 | like followed by dislike restores the post exactly |
| NewsModels.Comment.Like | NewsPaper/NewsPortal/models.py:104-106 | the comment's rating rises by exactly 1 |
| NewsModels.Comment.Dislike | NewsPaper/NewsPortal/models.py:100-102 | as written, dislike also raises the rating by 1 |
| NewsModels.CommentLikeThenDislike | NewsPaper/NewsPortal/models.py:100-106 | as written, like followed by dislike leaves the rating 2 higher and the comment changed |
| NewsModels.Comment.IntendedDislike | NewsPaper/NewsPortal/models.py:100-102 | corrected dislike: the rating falls by exactly 1 |
| NewsModels.CommentLikeThenIntendedDislike | NewsPaper/NewsPortal/models.py:100-106 | with the corrected dislike, like followed by dislike restores the comment |
| NewsModels.CreateLink | NewsPaper/NewsPortal/models.py:72-82 | creating a post–category link always adds a row, even a duplicate one: that pair's count rises by 1 and every other pair's count is unchanged |
| Subscriptions.SubscribedCategories | NewsPaper/NewsPortal/management/commands/send_weekly_digest.py:23 | a category is among the user's subscribed categories iff the user is among that category's subscribers (an assumed relation, see "## Left out") |
| PostSelection.InsertNewest | NewsPaper/NewsPortal/tasks.py:37 | ordering by creation time inserts exactly one post, keeping all others |
| PostSelection.InsertNewestKeepsOrder | NewsPaper/NewsPortal/tasks.py:37 | inserting into a newest-first list keeps it newest first |
| PostSelection.InsertNewestKeepsDistinct | NewsPaper/NewsPortal/tasks.py:37 | inserting a post not yet present keeps the list free of duplicates |
| PostSelection.Selection | NewsPaper/NewsPortal/tasks.py:33-37 | the query returns exactly the posts that are in the window, have the required type and are linked to one of the categories; newest first, each once |
| PostSelection.SelectionIgnoresDuplicateLink | NewsPaper/NewsPortal/tasks.py:33-37 | thanks to `distinct()`, a duplicated post–category link does not change the selection |
| Digests.Attempts | NewsPaper/NewsPortal/tasks.py:24-67 | a run makes at most one send attempt per subscriber row |
| Digests.AttemptsShape | NewsPaper/NewsPortal/tasks.py:24-67 | sends are attempted in subscriber order, at most once per subscriber, for exactly the subscribers that pass every check, each with the delivery planned for it and the oracle's outcome for its ordinal |
| Digests.CountSent | NewsPaper/NewsPortal/tasks.py:63 | the number of successful sends is at most the number of attempts |
| Digests.AttemptsCountPlanned | NewsPaper/NewsPortal/tasks.py:24-67 | the number of attempts equals the number of subscribers that pass every check |
| Tasks.Considered | NewsPaper/NewsPortal/tasks.py:16-19 | the subscriber query keeps only rows without `unsubscribed_at` and with a non-NULL email; an empty email still passes |
| Tasks.WeeklyPlan | NewsPaper/NewsPortal/tasks.py:24-41 | a digest is planned only for a considered subscriber with categories, to its own address, with at least one post; an unconsidered subscriber or one without categories gets none |
| Tasks.WeeklyPlanMeaning | NewsPaper/NewsPortal/tasks.py:16-41 | a subscriber gets a digest iff not unsubscribed, with a non-NULL email, with a category, and with a news post of the last 7 days in one of its categories; the digest then holds exactly those posts, newest first, each once |
| Tasks.WeeklyAttemptsBounded | NewsPaper/NewsPortal/tasks.py:16-67 | no more sends are attempted than there are considered subscribers |
| Tasks.PlannedAreConsidered | NewsPaper/NewsPortal/tasks.py:16-41 | every subscriber that gets a digest is among the considered ones |
| Tasks.SendWeeklyDigest | NewsPaper/NewsPortal/tasks.py:14-69 | the loop makes exactly the specified attempts; each attempt counts once as sent or as an error, so `total_sent + errors` ≤ considered subscribers; no subscriber row is written |
| Tasks.GetPost | NewsPaper/NewsPortal/tasks.py:78 | `Post.objects.get` gives `Found` with the row when exactly one row has the id, `NotFound` when none has it, and `MultipleFound` exactly when two distinct rows have it |
| Tasks.PostCategoryIds | NewsPaper/NewsPortal/tasks.py:81 | the post's categories are exactly those linked to it |
| Tasks.Recipients | NewsPaper/NewsPortal/tasks.py:79-82 | a user is a recipient iff subscribed to at least one of the post's categories (set union, so each user once) |
| Tasks.CollectRecipients | NewsPaper/NewsPortal/tasks.py:79-82 | the loop over categories builds exactly that union |
| Tasks.MailedRecipients | NewsPaper/NewsPortal/tasks.py:84-85 | the users mailed are recipients whose email is non-empty |
| Tasks.MailedRecipientsMeaning | NewsPaper/NewsPortal/tasks.py:79-85 | a user is mailed iff its email is non-empty and it subscribes to one of the post's categories |
| Tasks.MailEach | NewsPaper/NewsPortal/tasks.py:84-98 | each user with a non-empty email is mailed at most once and every mailed user is such a user; a full pass mails all of them; the first failed send stops the loop with one of them unsent |
| Tasks.SendNewPostNotifications | NewsPaper/NewsPortal/tasks.py:72-104 | a missing post sends nothing; each user gets at most one message and only users with a non-empty email get one; without a failure every such user is sent to; the first failed send ends the fan-out with some recipient left unsent |
| DigestCommand.CommandPlan | NewsPaper/NewsPortal/management/commands/send_weekly_digest.py:17-35 | a digest is planned only for a user with a non-empty email and a subscribed category, to that address, with at least one post; an empty or missing email gets none |
| DigestCommand.CommandPlanMeaning | NewsPaper/NewsPortal/management/commands/send_weekly_digest.py:17-35 | a subscriber gets a digest iff its user has a non-empty email, a subscribed category, and a post of any type created in [now − 7 days, now] in one of them; the digest holds exactly those posts, newest first, each once |
| DigestCommand.Saved | NewsPaper/NewsPortal/management/commands/send_weekly_digest.py:56-59 | saving a subscriber changes only `last_digest_sent`, which becomes `now` after a successful send; otherwise the row is unchanged |
| DigestCommand.Watermarked | NewsPaper/NewsPortal/management/commands/send_weekly_digest.py:17-59 | the table after a run has one row per subscriber row, and no row is added or removed |
| DigestCommand.Handle | NewsPaper/NewsPortal/management/commands/send_weekly_digest.py:13-63 | every subscriber is visited in order; the attempts are exactly the specified ones; the table afterwards is the old table with the watermark of each successfully sent row set to `now` |
| DigestCommand.OutcomeFor | NewsPaper/NewsPortal/management/commands/send_weekly_digest.py:37-63 | a row has an outcome iff it was attempted, and the outcome is that attempt's |
| DigestCommand.WatermarkMovesOnlyOnSuccess | NewsPaper/NewsPortal/management/commands/send_weekly_digest.py:20-63 | only `last_digest_sent` ever changes; it becomes `now` after a successful send; a failed send or a skipped subscriber leaves the row unchanged |
| DigestCommand.AttemptsIgnoreWatermarks | NewsPaper/NewsPortal/management/commands/send_weekly_digest.py:15-35 | which subscribers get which digest does not depend on `last_digest_sent` |
| DigestCommand.RerunRepeatsAttempts | NewsPaper/NewsPortal/management/commands/send_weekly_digest.py:13-63 | running the command again at the same `now` attempts the same sends again; the watermark prevents no double send |
| NewsFilters.BadWordsAreWords | NewsPaper/NewsPortal/templatetags/news_filters.py:15-28 | every listed word is a non-empty run of word characters |
| NewsFilters.FirstMatch | NewsPaper/NewsPortal/templatetags/news_filters.py:31-32 | a match at a position ends inside the text |
| NewsFilters.FirstMatchMeaning | NewsPaper/NewsPortal/templatetags/news_filters.py:31-32 | the alternation matches at a position iff some listed word matches there between word boundaries, ignoring case, and the match is the first such word in list order |
| NewsFilters.MatchIsWordRun | NewsPaper/NewsPortal/templatetags/news_filters.py:31 | a match is a non-empty run of word characters inside the text |
| NewsFilters.NoMatchInside | NewsPaper/NewsPortal/templatetags/news_filters.py:31 | no match starts inside another match |
| NewsFilters.CensorFrom | NewsPaper/NewsPortal/templatetags/news_filters.py:35-40 | the substitution keeps the length of the text it scans |
| NewsFilters.CensorText | NewsPaper/NewsPortal/templatetags/news_filters.py:40 | substituting over the fixed word list keeps the length of the text |
| NewsFilters.Censor | NewsPaper/NewsPortal/templatetags/news_filters.py:9-12 | a non-string raises `TypeError`; a string gives a string of the same length |
| NewsFilters.CensorMasksMatches | NewsPaper/NewsPortal/templatetags/news_filters.py:35-40 | each output character is '*' exactly when it lies in a match after its first letter; every other character is the input's |
| NewsFilters.CensorWithoutMatches | NewsPaper/NewsPortal/templatetags/news_filters.py:31-40 | text with no listed word as a whole word is returned unchanged |
| NewsFilters.MatchStartNotMasked | NewsPaper/NewsPortal/templatetags/news_filters.py:36-37 | the first letter of a match is never masked |
| NewsFilters.CensorKeepsFirstCharacter | NewsPaper/NewsPortal/templatetags/news_filters.py:35-37 | a matched word keeps its first character in its original case, and its other `len − 1` characters become '*' |
| NewsFilters.MatchIsWholeWord | NewsPaper/NewsPortal/templatetags/news_filters.py:31 | a match at a position is exactly a listed word, ignoring case, with no word character directly before or after it |
| NewsFilters.EmbeddedWordNotMatched | NewsPaper/NewsPortal/templatetags/news_filters.py:31 | a listed word right after a word character is not censored there |
| NewsFilters.MatchIgnoresCase | NewsPaper/NewsPortal/templatetags/news_filters.py:32 | texts equal up to case match at the same positions with the same lengths |
| NewsFilters.CensorIgnoresCase | NewsPaper/NewsPortal/templatetags/news_filters.py:32-40 | texts equal up to case are masked at the same positions, and their outputs are equal up to case |
| PortalStartup.EnvGet | NewsPaper/NewsPortal/apps.py:20 | `os.environ.get` yields the value of a set variable and `None` for an unset one |
| PortalStartup.Ready | NewsPaper/NewsPortal/apps.py:17-24 | the start-up thread is launched iff neither `WERKZEUG_RUN_MAIN` nor `RUN_MAIN` holds a non-empty value |
| PortalStartup.ReadyInReloaderChild | NewsPaper/NewsPortal/apps.py:20-24 | the autoreloader's child process launches no thread; a process with neither variable launches one |
| PortalStartup.FirstSettled | NewsPaper/NewsPortal/apps.py:33-43 | the first attempt below the bound that does not raise `OperationalError`, after only such errors; none iff every attempt raises it |
| PortalStartup.FirstSettledAt | NewsPaper/NewsPortal/apps.py:33-43 | an attempt that does not raise `OperationalError`, after a run of attempts that all do, is the first settled attempt |
| PortalStartup.DelayedSchedulerStart | NewsPaper/NewsPortal/apps.py:26-51 | 1 to 10 connection attempts; every attempt before the last raised `OperationalError`, each followed by a 5-second sleep. The thread gives up iff all 10 raise `OperationalError`. It crashes iff the first other outcome is a different exception: no further attempt, no 10-second sleep, no scheduler start. Otherwise it connected: it sleeps 10 seconds and tries the scheduler. The scheduler starts iff the hook starts it, and a failed import or start is absorbed |
| McDonalds.AmountFromValue | NewsPaper/mc_donalds/models.py:57-59 | the stored amount is never negative: `int(value)` for a non-negative value, 0 for a negative one |
| McDonalds.AmountOfWholeNumber | NewsPaper/mc_donalds/models.py:57-59 | a whole non-negative amount is stored as given; a negative one as 0 |
| McDonalds.ProductOrder.SetAmount | NewsPaper/mc_donalds/models.py:57-60 | the setter stores the clamped amount and keeps it non-negative |
| McDonalds.ProductOrder.Amount | NewsPaper/mc_donalds/models.py:53-55 | the getter reads back a non-negative amount |
| McDonalds.SetThenGetAmount | NewsPaper/mc_donalds/models.py:53-59 | setting a non-negative whole amount and reading it gives it back |
| McDonalds.Order.FinishOrder | NewsPaper/mc_donalds/models.py:27-30 | the order becomes complete with `time_out` set to now |
| McDonalds.FinishOrderTwice | NewsPaper/mc_donalds/models.py:27-30 | finishing twice keeps the order complete, with the second call's time |
| McDonalds.IsSpace | NewsPaper/mc_donalds/models.py:15 | the whitespace `str.split()` splits on: the only printable ASCII whitespace is the space; newline, no-break space and ideographic space are whitespace |
| McDonalds.WordLength | NewsPaper/mc_donalds/models.py:15 | a token extends over non-whitespace characters and ends at whitespace or at the end of the string |
| McDonalds.Split | NewsPaper/mc_donalds/models.py:15 | `str.split()` yields non-empty tokens without whitespace |
| McDonalds.SplitEmptyIffBlank | NewsPaper/mc_donalds/models.py:15 | `split()` is empty iff the string is all whitespace |
| McDonalds.SplitJoinWords | NewsPaper/mc_donalds/models.py:15 | splitting words joined by single spaces gives the words back |
| McDonalds.FirstTokenShape | NewsPaper/mc_donalds/models.py:14-15 | the first token follows only whitespace and ends at whitespace or at the end |
| McDonalds.GetLastName | NewsPaper/mc_donalds/models.py:14-15 | `IndexError` iff the full name is blank; otherwise the first whitespace-separated token |

## Left out

- Email rendering and sending (`render_to_string`, `EmailMultiAlternatives.send`) are not modelled. Each send is an oracle outcome, and the subject, body and HTML content are not modelled.
- Celery's `@shared_task` and its retries and scheduling are out, because task dispatch is outside the code's own logic.
- The start-up thread, `time.sleep` and `connection.ensure_connection` are out. Each connection attempt's outcome comes from an oracle: connected, `OperationalError`, or another exception. Another exception is not caught in the source, so it ends the thread; the model reports this as `Crashed`.
- PortalStartup.DelayedSchedulerStart: sleeps are returned as a list of durations and are not performed.
- PortalStartup.DelayedSchedulerStart: `start_scheduler` does not exist in `tasks.py`, so what its import and call do is a parameter (`SchedulerHook`). In this repository that is `Missing`, so the scheduler never starts and the error is only logged.
- Logging (`logger.*`, `self.stdout/stderr.write`) and the return message of `send_weekly_digest` are out. The counters are returned instead.
- The Django ORM, `save()` and `prefetch_related` are out; tables are in-memory sequences.
- Tasks.SendWeeklyDigest: the subscriber query's `distinct()` is not modelled, and each subscriber row is visited once.
- `timezone.now()` is read several times by the source but is a single `now` parameter in the model. Dates (`.date()`, `localtime`) are out.
- Floating-point fields and methods are out: `Order.cost`, `Product.price`, `ProductOrder.product_sum`, `Order.get_duration`.
- McDonalds.AmountFromValue: the value is an exact real, so float rounding is not modelled.
- `mark_safe` is out, since it only marks the string for the template engine.
- NewsFilters.IsWordChar: with NewsFilters.FoldCase, it only approximates Unicode `\w` and case folding. The two cover ASCII letters, digits and `_`, the basic Cyrillic alphabet and Ё/ё. Any other character that Python counts as a word character is a boundary in the model. Examples are accented Latin letters, і/ї/є/ў and non-ASCII digits. Next to such a character the model censors a word that Python leaves alone: `FirstMatch("éбля", 1, BadWords)` is `Some(3)`, but Python does not change "éбля". The model also misses case equivalences that Python's `IGNORECASE` adds beyond the basic alphabets, such as 'ᲀ' matching 'в'.
- Subscriptions.SubscribedCategories: neither `User.subscribed_categories` nor `Category.subscribers` is defined in the modelled files. The model assumes that the first is the reverse of the second. So the command mails the users listed in `Category.subscribers`, while the weekly task reads `Subscriber.categories`.
- PostSelection.Selection: posts with the same `created_at` keep their table order. `order_by('-created_at')` leaves the order of such ties open. DigestCommand.RerunRepeatsAttempts depends on this choice.
- The `signals` import in `ready`, the views, URLs, forms, filters, admin, context processors and the `simpleapp` app are outside the modelled core.

## Findings

| source | as written | input that shows it | evidently intended | confidence | as-written member | corrected member |
|---|---|---|---|---|---|---|
| NewsPaper/NewsPortal/models.py:100-102 | `Comment.dislike` adds 1 to the rating, the same as `like` | a comment at rating 0 that is liked and then disliked ends at 2; the accompanying demo script annotates `comment.dislike()` with "-1" | `dislike` subtracts 1, like `Post.dislike` | high (not executed) | NewsModels.CommentLikeThenDislike | NewsModels.CommentLikeThenIntendedDislike |
