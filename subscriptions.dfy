/** Users, digest subscribers and the category subscriber relation. The news
    portal's code refers to these (`Subscriber`, `Category.subscribers`,
    `User.subscribed_categories`) without defining them in the modelled
    files; this module gives them the fields the digest jobs and the
    notification task read. That `subscribed_categories` is the reverse of
    `Category.subscribers` is an assumption of this model. */
module Subscriptions {
  import opened Common
  import opened NewsModels

  /** A user as the mail jobs see it; `email` is `None` when the column is NULL. */
  datatype User = User(id: UserId, username: string, email: Option<string>)

  /** A digest subscriber: its user, its digest categories, the time it
      unsubscribed (if it did) and the watermark of its last digest. */
  datatype Subscriber = Subscriber(
    user: User,
    categories: set<CategoryId>,
    unsubscribedAt: Option<Time>,
    lastDigestSent: Option<Time>)

  /** `Category.subscribers` for every category; a missing key means nobody. */
  type CategorySubscribers = map<CategoryId, set<User>>

  function SubscribersOf(catSubs: CategorySubscribers, c: CategoryId): set<User>
  {
    if c in catSubs then catSubs[c] else {}
  }

  /** `User.subscribed_categories`, assumed to be the reverse of
      `Category.subscribers`: neither relation is defined in the modelled files. */
  function SubscribedCategories(catSubs: CategorySubscribers, u: User): (r: set<CategoryId>)
    ensures forall c :: c in r <==> u in SubscribersOf(catSubs, c)
  {
    set c | c in catSubs && u in catSubs[c]
  }
}
