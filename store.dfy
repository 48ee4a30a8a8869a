/** The persisted records (users and subscription codes) and the store that
    holds them. Time is an integer count of seconds; the JSON encoding of the
    files is not modelled, only the whole-record get/save semantics. */
module Store {
  import opened Wrappers
  import opened Tiers

  const SecondsPerDay: int := 86400

  /** Python's `(later - earlier).days`: whole days elapsed, rounded towards
      minus infinity (for a positive divisor Dafny's `/` rounds the same way). */
  function WholeDays(earlier: int, later: int): (d: int)
    ensures d >= 1 <==> later - earlier >= SecondsPerDay
    ensures d == 0 <==> 0 <= later - earlier < SecondsPerDay
  {
    (later - earlier) / SecondsPerDay
  }

  /** `datetime + timedelta(days=n)`. */
  function AddDays(t: int, n: int): int {
    t + n * SecondsPerDay
  }

  datatype Settings = Settings(silentMode: bool, quality: string)

  /** `UserData`: a bot user's subscription and usage counters. */
  datatype UserRecord = UserRecord(
    userId: int,
    username: string,
    tier: Tier,
    ends: Option<int>,          // subscription_ends; None means no paid term
    daily: nat,                 // daily_downloads
    total: nat,                 // total_downloads
    lastReset: int,             // last_reset
    followed: seq<string>,      // followed_accounts
    settings: Settings)

  /** `SubscriptionCode`: a redeemable activation code. */
  datatype CodeRecord = CodeRecord(
    code: string,
    tier: Tier,
    duration: int,              // days granted
    maxUses: int,
    usedCount: nat,
    createdAt: int,
    expiresAt: Option<int>)

  /** A user record with the dataclass defaults, as the /start handler creates it. */
  function NewUser(userId: int, username: string, now: int): (u: UserRecord)
    ensures u.userId == userId && u.username == username
    ensures u.tier == Free && u.ends == None
    ensures u.daily == 0 && u.total == 0 && u.lastReset == now && u.followed == []
    ensures u.settings == Settings(false, "best")
  {
    UserRecord(userId, username, Free, None, 0, 0, now, [], Settings(false, "best"))
  }

  /** The user table as a lookup: the record stored under the id, or None. */
  function FindUser(users: map<int, UserRecord>, userId: int): (u: Option<UserRecord>)
    ensures u.Some? <==> userId in users
    ensures u.Some? ==> u.value == users[userId]
  {
    if userId in users then Some(users[userId]) else None
  }

  /** Every user is stored under its own id and every code under its own token. */
  ghost predicate KeysMatch(users: map<int, UserRecord>, codes: map<string, CodeRecord>) {
    && (forall k :: k in users ==> users[k].userId == k)
    && (forall k :: k in codes ==> codes[k].code == k)
  }

  /** `DatabaseManager`: the users and codes collections, read and written as
      whole records. */
  class Database {
    var users: map<int, UserRecord>
    var codes: map<string, CodeRecord>

    ghost predicate Valid()
      reads this
    {
      KeysMatch(users, codes)
    }

    constructor ()
      ensures Valid() && users == map[] && codes == map[]
    {
      users := map[];
      codes := map[];
    }

    /** `get_user`: the record stored under the id, or None. */
    function GetUser(userId: int): (u: Option<UserRecord>)
      reads this
      requires Valid()
      ensures u.Some? <==> userId in users
      ensures u.Some? ==> u.value == users[userId] && u.value.userId == userId
    {
      FindUser(users, userId)
    }

    /** `get_code`: the record stored under the token, or None. */
    function GetCode(code: string): (c: Option<CodeRecord>)
      reads this
      requires Valid()
      ensures c.Some? <==> code in codes
      ensures c.Some? ==> c.value == codes[code] && c.value.code == code
    {
      if code in codes then Some(codes[code]) else None
    }

    /** `save_user`: store the record under its own id, replacing any earlier one. */
    method SaveUser(u: UserRecord)
      requires Valid()
      modifies this
      ensures Valid()
      ensures users == old(users)[u.userId := u] && codes == old(codes)
      ensures GetUser(u.userId) == Some(u)
    {
      users := users[u.userId := u];
    }

    /** `save_code`: store the record under its own token, replacing any earlier one. */
    method SaveCode(c: CodeRecord)
      requires Valid()
      modifies this
      ensures Valid()
      ensures codes == old(codes)[c.code := c] && users == old(users)
      ensures GetCode(c.code) == Some(c)
    {
      codes := codes[c.code := c];
    }

    /** `save_json(USERS_DB, data)`: replace the whole users collection, as the
        maintenance sweep does. */
    method SaveAllUsers(all: map<int, UserRecord>)
      requires KeysMatch(all, codes)
      modifies this
      ensures Valid()
      ensures users == all && codes == old(codes)
    {
      users := all;
    }
  }
}
