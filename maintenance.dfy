/** `scheduled_tasks`: the midnight sweep over all users (daily reset, then
    expiry demotion, each followed by a save of the whole collection) and the
    pruning of the download cache. */
module Maintenance {
  import opened Wrappers
  import opened Lists
  import opened Tiers
  import opened Store
  import opened Subscription
  import opened Downloader
  import opened Bot

  /** `Config.CACHE_DURATION`: 24 hours, in seconds. */
  const CacheDuration := 24 * 3600

  /** Every user after the first loop. */
  function ResetAll(users: map<int, UserRecord>, now: int): map<int, UserRecord> {
    map k | k in users :: ResetIfDue(users[k], now)
  }

  /** Every user after the second loop. */
  function ExpireAll(users: map<int, UserRecord>, now: int): map<int, UserRecord> {
    map k | k in users :: DemoteIfExpired(users[k], now)
  }

  /** The users the second loop writes to. */
  function ExpiredIds(users: map<int, UserRecord>, now: int): set<int> {
    set k | k in users && IsExpired(users[k].ends, now)
  }

  /** The first loop: reset the daily counter of every user whose last reset
      lies a whole day or more in the past. */
  method ResetPhase(users: map<int, UserRecord>, now: int) returns (r: map<int, UserRecord>)
    ensures r == ResetAll(users, now)
  {
    r := users;
    var todo := users.Keys;
    while todo != {}
      invariant todo <= users.Keys
      invariant r.Keys == users.Keys
      invariant forall k :: k in todo ==> r[k] == users[k]
      invariant forall k :: k in users && k !in todo ==> r[k] == ResetIfDue(users[k], now)
      decreases todo
    {
      SomeElement(todo);
      var k :| k in todo;
      var u := r[k];
      if WholeDays(u.lastReset, now) >= 1 {
        u := u.(daily := 0, lastReset := now);
      }
      r := r[k := u];
      todo := todo - {k};
    }
    assert forall k :: k in r <==> k in ResetAll(users, now);
    assert forall k :: k in r ==> r[k] == ResetAll(users, now)[k];
  }

  /** The second loop: demote every user whose term has run out, and collect
      the users to notify. */
  method ExpiryPhase(users: map<int, UserRecord>, now: int) returns (r: map<int, UserRecord>, notified: set<int>)
    ensures r == ExpireAll(users, now)
    ensures notified == ExpiredIds(users, now)
  {
    r := users;
    notified := {};
    var todo := users.Keys;
    while todo != {}
      invariant todo <= users.Keys
      invariant r.Keys == users.Keys
      invariant forall k :: k in todo ==> r[k] == users[k]
      invariant forall k :: k in users && k !in todo ==> r[k] == DemoteIfExpired(users[k], now)
      invariant notified == set k | k in users && k !in todo && IsExpired(users[k].ends, now)
      decreases todo
    {
      SomeElement(todo);
      var k :| k in todo;
      var u := r[k];
      if u.ends.Some? && now > u.ends.value {
        u := u.(tier := Free, ends := None);
        notified := notified + {k};
      }
      r := r[k := u];
      todo := todo - {k};
    }
    assert forall k :: k in r <==> k in ExpireAll(users, now);
    assert forall k :: k in r ==> r[k] == ExpireAll(users, now)[k];
  }

  /** The cache comprehension: keep the entries younger than a day. */
  function PruneCache(cache: map<string, CacheEntry>, now: int): (r: map<string, CacheEntry>)
    ensures forall k :: k in r <==> k in cache && now - cache[k].timestamp < CacheDuration
    ensures forall k :: k in r ==> r[k] == cache[k]
  {
    map k | k in cache && now - cache[k].timestamp < CacheDuration :: cache[k]
  }

  /** Pruning twice at the same instant is pruning once. */
  lemma PruneIdempotent(cache: map<string, CacheEntry>, now: int)
    ensures PruneCache(PruneCache(cache, now), now) == PruneCache(cache, now)
  {
  }

  /** The sweep does to each user exactly what `check_subscription` does:
      reset-then-demote and demote-then-reset agree, because they read and
      write disjoint fields. */
  lemma SweepIsCorrection(users: map<int, UserRecord>, now: int)
    ensures ExpireAll(ResetAll(users, now), now).Keys == users.Keys
    ensures forall k :: k in users ==> ExpireAll(ResetAll(users, now), now)[k] == Corrected(users[k], now)
  {
  }

  /** After the sweep no user holds an expired term, and a second sweep at
      the same instant changes nothing. */
  lemma SweepIdempotent(users: map<int, UserRecord>, now: int)
    ensures var once := ExpireAll(ResetAll(users, now), now);
      && (forall k :: k in once ==> !IsExpired(once[k].ends, now))
      && ExpireAll(ResetAll(once, now), now) == once
  {
    SweepIsCorrection(users, now);
    var once := ExpireAll(ResetAll(users, now), now);
    SweepIsCorrection(once, now);
    forall k | k in users
      ensures ExpireAll(ResetAll(once, now), now)[k] == once[k]
    {
      CorrectedIdempotent(users[k], now);
    }
  }

  /** The sweep keeps every record under its own id. */
  lemma SweepKeepsKeys(users: map<int, UserRecord>, codes: map<string, CodeRecord>, now: int)
    requires KeysMatch(users, codes)
    ensures KeysMatch(ResetAll(users, now), codes)
    ensures KeysMatch(ExpireAll(users, now), codes)
  {
  }

  /** `scheduled_tasks(bot)` at one instant `now`: reset and save, demote and
      save, then prune the cache. Returns the users who are notified of their
      expiry. */
  method ScheduledTasks(bot: StoryBot, now: int) returns (notified: set<int>)
    requires bot.Valid()
    modifies bot.db, bot.downloader
    ensures bot.Valid()
    ensures bot.db.users == ExpireAll(ResetAll(old(bot.db.users), now), now)
    ensures bot.db.codes == old(bot.db.codes)
    ensures notified == ExpiredIds(ResetAll(old(bot.db.users), now), now)
    ensures bot.downloader.cache == PruneCache(old(bot.downloader.cache), now)
  {
    var usersData := bot.db.users;
    var reset := ResetPhase(usersData, now);
    SweepKeepsKeys(usersData, bot.db.codes, now);
    bot.db.SaveAllUsers(reset);
    var swept;
    swept, notified := ExpiryPhase(reset, now);
    SweepKeepsKeys(reset, bot.db.codes, now);
    bot.db.SaveAllUsers(swept);
    bot.downloader.cache := PruneCache(bot.downloader.cache, now);
  }
}
