/** `SubscriptionManager`: the lazy correction of a user's stored status,
    redemption of activation codes and issuing of new codes. Each operation is
    specified by a pure function on the stored records; the methods perform
    the same reads, field updates and saves as the source, in the same order. */
module Subscription {
  import opened Wrappers
  import opened Tiers
  import opened Store

  // ---------------------------------------------------------------- status

  /** A non-null expiry strictly before `now`. */
  predicate IsExpired(ends: Option<int>, now: int) {
    ends.Some? && now > ends.value
  }

  /** The expiry half of `check_subscription`: an expired term falls back to Free. */
  function DemoteIfExpired(u: UserRecord, now: int): UserRecord {
    if IsExpired(u.ends, now) then u.(tier := Free, ends := None) else u
  }

  /** The daily half of `check_subscription`: once a whole day has passed since
      the last reset, the daily counter starts again from zero. */
  function ResetIfDue(u: UserRecord, now: int): UserRecord {
    if WholeDays(u.lastReset, now) >= 1 then u.(daily := 0, lastReset := now) else u
  }

  /** The record `check_subscription` leaves in the store at time `now`. */
  function Corrected(u: UserRecord, now: int): (r: UserRecord)
    // expiry demotion
    ensures IsExpired(u.ends, now) ==> r.tier == Free && r.ends == None
    ensures !IsExpired(u.ends, now) ==> r.tier == u.tier && r.ends == u.ends
    // daily reset
    ensures WholeDays(u.lastReset, now) >= 1 ==> r.daily == 0 && r.lastReset == now
    ensures WholeDays(u.lastReset, now) < 1 ==> r.daily == u.daily && r.lastReset == u.lastReset
    // the corrected record is current: its term, if any, has not run out
    ensures !IsExpired(r.ends, now)
    // nothing else is touched
    ensures r.userId == u.userId && r.username == u.username && r.total == u.total
    ensures r.followed == u.followed && r.settings == u.settings
  {
    ResetIfDue(DemoteIfExpired(u, now), now)
  }

  /** What `check_subscription` returns: Free with no expiry for an unknown
      user, otherwise the corrected tier and expiry. */
  function Status(u: Option<UserRecord>, now: int): (s: (Tier, Option<int>))
    ensures u.None? ==> s == (Free, None)
    ensures u.Some? && IsExpired(u.value.ends, now) ==> s == (Free, None)
    ensures u.Some? && !IsExpired(u.value.ends, now) ==> s == (u.value.tier, u.value.ends)
  {
    match u
    case None => (Free, None)
    case Some(rec) => var c := Corrected(rec, now); (c.tier, c.ends)
  }

  /** A second check at the same instant changes nothing. */
  lemma CorrectedIdempotent(u: UserRecord, now: int)
    ensures Corrected(Corrected(u, now), now) == Corrected(u, now)
  {
  }

  /** A paid tier always comes with a term; Free may have none. */
  predicate PaidHasTerm(u: UserRecord) {
    u.tier != Free ==> u.ends.Some?
  }

  /** The source's invariant "tier is Free whenever the expiry is null or past"
      holds of every corrected record whose stored record had a term for its tier. */
  lemma CorrectedIsConsistent(u: UserRecord, now: int)
    requires PaidHasTerm(u)
    ensures var r := Corrected(u, now);
      PaidHasTerm(r) && (r.ends.None? || now > r.ends.value ==> r.tier == Free)
  {
  }

  /** A user record created by /start is already current: the check leaves it
      as it is and reports the Free tier with no term. */
  lemma NewUserIsCurrent(userId: int, username: string, now: int)
    ensures var u := NewUser(userId, username, now);
      && Corrected(u, now) == u
      && Status(Some(u), now) == (Free, None)
      && PaidHasTerm(u)
  {
  }

  // ---------------------------------------------------------- redemption

  datatype Rejection = InvalidCode | CodeExpired | LimitReached | UserNotFound

  /** The `(bool, message)` pair `activate_code` returns, without the text. */
  datatype Activation = Activated(tier: Tier, days: int) | Rejected(why: Rejection)

  predicate CodeIsExpired(c: CodeRecord, now: int) {
    c.expiresAt.Some? && now > c.expiresAt.value
  }

  /** The chain of checks of `activate_code`, in the source's order. */
  function Verdict(c: Option<CodeRecord>, u: Option<UserRecord>, now: int): Activation {
    if c.None? then Rejected(InvalidCode)
    else if CodeIsExpired(c.value, now) then Rejected(CodeExpired)
    else if c.value.usedCount >= c.value.maxUses then Rejected(LimitReached)
    else if u.None? then Rejected(UserNotFound)
    else Activated(c.value.tier, c.value.duration)
  }

  /** The user record after redeeming `c` at `now`. */
  function Redeemed(u: UserRecord, c: CodeRecord, now: int): UserRecord {
    u.(tier := c.tier, ends := Some(AddDays(now, c.duration)))
  }

  /** Redemption count of every code within its maximum (the invariant of every stored code). */
  ghost predicate UsageBounded(codes: map<string, CodeRecord>) {
    forall k :: k in codes ==> codes[k].usedCount <= codes[k].maxUses
  }

  datatype RedeemStep = RedeemStep(
    users: map<int, UserRecord>, codes: map<string, CodeRecord>, result: Activation)

  /** `activate_code` on the two collections. */
  function Redeem(users: map<int, UserRecord>, codes: map<string, CodeRecord>,
                  userId: int, code: string, now: int): (r: RedeemStep)
    // the rejections, in order
    ensures r.result == Rejected(InvalidCode) <==> code !in codes
    ensures r.result == Rejected(CodeExpired) <==> code in codes && CodeIsExpired(codes[code], now)
    ensures r.result == Rejected(LimitReached) <==>
      code in codes && !CodeIsExpired(codes[code], now) && codes[code].usedCount >= codes[code].maxUses
    ensures r.result == Rejected(UserNotFound) <==>
      code in codes && !CodeIsExpired(codes[code], now) && codes[code].usedCount < codes[code].maxUses
      && userId !in users
    // a rejection changes nothing
    ensures r.result.Rejected? ==> r.users == users && r.codes == codes
    // a success applies the code to the user and counts one more use of it
    ensures r.result.Activated? ==>
      && code in codes && userId in users
      && r.result == Activated(codes[code].tier, codes[code].duration)
      && r.users == users[userId := Redeemed(users[userId], codes[code], now)]
      && r.codes == codes[code := codes[code].(usedCount := codes[code].usedCount + 1)]
      && r.codes[code].usedCount <= r.codes[code].maxUses
      && r.users[userId].tier == codes[code].tier
      && r.users[userId].ends == Some(now + codes[code].duration * SecondsPerDay)
    // the store invariants survive
    ensures UsageBounded(codes) ==> UsageBounded(r.codes)
    ensures KeysMatch(users, codes) ==> KeysMatch(r.users, r.codes)
  {
    var c := if code in codes then Some(codes[code]) else None;
    var u := if userId in users then Some(users[userId]) else None;
    var v := Verdict(c, u, now);
    if v.Activated? then
      RedeemStep(users[userId := Redeemed(u.value, c.value, now)],
                 codes[code := c.value.(usedCount := c.value.usedCount + 1)], v)
    else
      RedeemStep(users, codes, v)
  }

  /** A redeemed code with a non-negative duration is in force right away: the
      next `check_subscription` at the same instant reports the code's tier and
      the new expiry. With a negative duration the term is already over. */
  lemma RedeemedStatus(u: UserRecord, c: CodeRecord, now: int)
    ensures c.duration >= 0 ==>
      Status(Some(Redeemed(u, c, now)), now) == (c.tier, Some(now + c.duration * SecondsPerDay))
    ensures c.duration < 0 ==> Status(Some(Redeemed(u, c, now)), now) == (Free, None)
  {
  }

  /** The term granted by a code runs out: after it, the user is Free again. */
  lemma RedeemedTermEnds(u: UserRecord, c: CodeRecord, now: int, later: int)
    requires later > AddDays(now, c.duration)
    ensures Status(Some(Redeemed(u, c, now)), later) == (Free, None)
  {
  }

  // ------------------------------------------------------------ issuing

  /** The shape of a generated token: 12 upper-case hexadecimal digits (the
      first 12 characters of a SHA-256 hex digest, upper-cased). */
  predicate IsCodeToken(s: string) {
    |s| == 12 && forall i :: 0 <= i < |s| ==> s[i] in "0123456789ABCDEF"
  }

  /** The record `create_code` stores. `expires_in_days` is read for its
      truthiness, so both None and 0 give a code that never expires. */
  function NewCode(token: string, tier: Tier, durationDays: int, maxUses: int,
                   expiresInDays: Option<int>, now: int): (c: CodeRecord)
    ensures c.code == token && c.tier == tier && c.duration == durationDays
    ensures c.maxUses == maxUses && c.usedCount == 0 && c.createdAt == now
    ensures c.expiresAt.None? <==> expiresInDays.None? || expiresInDays.value == 0
    ensures c.expiresAt.Some? ==> c.expiresAt.value == now + expiresInDays.value * SecondsPerDay
  {
    var expiresAt := if expiresInDays.Some? && expiresInDays.value != 0
                     then Some(AddDays(now, expiresInDays.value)) else None;
    CodeRecord(token, tier, durationDays, maxUses, 0, now, expiresAt)
  }

  /** A new code with at least one use, redeemed by a registered user before
      it expires, activates the code's tier. */
  lemma NewCodeRedeemable(users: map<int, UserRecord>, codes: map<string, CodeRecord>,
                          c: CodeRecord, userId: int, now: int)
    requires c.usedCount == 0 && c.maxUses >= 1 && !CodeIsExpired(c, now)
    requires userId in users
    ensures Redeem(users, codes[c.code := c], userId, c.code, now).result
            == Activated(c.tier, c.duration)
  {
  }

  /** A single-use code can be redeemed once: a second attempt, by any user,
      is refused with "usage limit reached" and changes nothing. */
  lemma {:induction false} SingleUseCodeExhausted(users: map<int, UserRecord>,
      codes: map<string, CodeRecord>, c: CodeRecord, first: int, second: int, now: int, later: int)
    requires c.usedCount == 0 && c.maxUses == 1
    requires first in users
    requires !CodeIsExpired(c, now) && !CodeIsExpired(c, later)
    ensures var s1 := Redeem(users, codes[c.code := c], first, c.code, now);
      && s1.result == Activated(c.tier, c.duration)
      && s1.codes[c.code].usedCount == 1
      && var s2 := Redeem(s1.users, s1.codes, second, c.code, later);
         s2.result == Rejected(LimitReached) && s2.users == s1.users && s2.codes == s1.codes
  {
    var s1 := Redeem(users, codes[c.code := c], first, c.code, now);
    assert s1.codes[c.code] == c.(usedCount := 1);
  }

  // --------------------------------------------------------------- class

  /** `SubscriptionManager`, bound to its database. */
  class SubscriptionManager {
    const db: Database

    constructor (db: Database)
      ensures this.db == db
    {
      this.db := db;
    }

    /** `check_subscription`: correct the stored record lazily and report the
        effective tier and expiry. */
    method CheckSubscription(userId: int, now: int) returns (tier: Tier, ends: Option<int>)
      requires db.Valid()
      modifies db
      ensures db.Valid()
      ensures (tier, ends) == Status(old(db.GetUser(userId)), now)
      ensures db.users == if userId in old(db.users)
                          then old(db.users)[userId := Corrected(old(db.users)[userId], now)]
                          else old(db.users)
      ensures db.codes == old(db.codes)
    {
      var found := db.GetUser(userId);
      if found.None? {
        return Free, None;
      }
      var u := found.value;
      if u.ends.Some? && now > u.ends.value {
        u := u.(tier := Free, ends := None);
        db.SaveUser(u);
      }
      if WholeDays(u.lastReset, now) >= 1 {
        u := u.(daily := 0, lastReset := now);
        db.SaveUser(u);
      }
      assert u == Corrected(found.value, now);
      return u.tier, u.ends;
    }

    /** `activate_code`: run the checks in order, then apply the code and
        save the code and the user. */
    method ActivateCode(userId: int, code: string, now: int) returns (ok: bool, r: Activation)
      requires db.Valid()
      modifies db
      ensures db.Valid()
      ensures ok == r.Activated?
      ensures var step := Redeem(old(db.users), old(db.codes), userId, code, now);
        r == step.result && db.users == step.users && db.codes == step.codes
    {
      var c := db.GetCode(code);
      if c.None? {
        return false, Rejected(InvalidCode);
      }
      var cd := c.value;
      if cd.expiresAt.Some? && now > cd.expiresAt.value {
        return false, Rejected(CodeExpired);
      }
      if cd.usedCount >= cd.maxUses {
        return false, Rejected(LimitReached);
      }
      var found := db.GetUser(userId);
      if found.None? {
        return false, Rejected(UserNotFound);
      }
      var u := found.value;
      u := u.(tier := cd.tier, ends := Some(AddDays(now, cd.duration)));
      cd := cd.(usedCount := cd.usedCount + 1);
      db.SaveCode(cd);
      db.SaveUser(u);
      return true, Activated(cd.tier, cd.duration);
    }

    /** `create_code`: store a fresh code under the given token (the source
        derives it by hashing the tier, duration and wall-clock time). */
    method CreateCode(tier: Tier, durationDays: int, maxUses: int, expiresInDays: Option<int>,
                      token: string, now: int) returns (code: string)
      requires db.Valid()
      requires IsCodeToken(token)
      modifies db
      ensures db.Valid()
      ensures code == token && IsCodeToken(code)
      ensures db.codes == old(db.codes)[token := NewCode(token, tier, durationDays, maxUses, expiresInDays, now)]
      ensures db.users == old(db.users)
      ensures maxUses >= 0 && UsageBounded(old(db.codes)) ==> UsageBounded(db.codes)
    {
      var expiresAt: Option<int> := None;
      if expiresInDays.Some? && expiresInDays.value != 0 {
        expiresAt := Some(AddDays(now, expiresInDays.value));
      }
      var c := CodeRecord(token, tier, durationDays, maxUses, 0, now, expiresAt);
      db.SaveCode(c);
      return token;
    }
  }
}
