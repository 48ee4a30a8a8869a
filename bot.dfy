/** The part of `StoryBot` that is core logic: the per-user registry of
    downloads in flight and the admission test of `download_single_story`. */
module Bot {
  import opened Wrappers
  import opened Lists
  import opened Tiers
  import opened Store
  import opened Subscription
  import opened Sessions
  import opened Downloader

  /** `f"{user_id}_{username}_{story_id}_{timestamp}"`, kept as its parts. */
  datatype TaskId = TaskId(userId: int, account: string, storyId: int, stamp: int)

  /** `active_downloads.get(user_id, [])`. */
  function InFlight(m: map<int, seq<TaskId>>, userId: int): (s: seq<TaskId>)
    ensures userId !in m ==> s == []
    ensures userId in m ==> s == m[userId]
  {
    if userId in m then m[userId] else []
  }

  /** The concurrency test of `download_single_story`: fewer downloads in
      flight than the tier's cap. */
  predicate HasRoom(m: map<int, seq<TaskId>>, userId: int, tier: Tier) {
    |InFlight(m, userId)| < ConcurrentLimit(tier)
  }

  /** `active_downloads[user_id].append(task_id)` on the `defaultdict`. */
  function Track(m: map<int, seq<TaskId>>, userId: int, t: TaskId): (r: map<int, seq<TaskId>>)
    ensures r.Keys == m.Keys + {userId}
    ensures InFlight(r, userId) == InFlight(m, userId) + [t]
    ensures forall u :: u in m && u != userId ==> r[u] == m[u]
  {
    m[userId := InFlight(m, userId) + [t]]
  }

  /** The `finally` block: drop a download's task id from its user's list. */
  function Untrack(m: map<int, seq<TaskId>>, userId: int, t: TaskId): (r: map<int, seq<TaskId>>)
    ensures r.Keys == m.Keys
    ensures |InFlight(r, userId)| <= |InFlight(m, userId)|
    ensures t in InFlight(m, userId) ==> |InFlight(r, userId)| == |InFlight(m, userId)| - 1
    ensures multiset(InFlight(r, userId)) == multiset(InFlight(m, userId)) - multiset{t}
    ensures t !in InFlight(m, userId) ==> r == m
    ensures forall u :: u in m && u != userId ==> r[u] == m[u]
  {
    if userId in m && t in m[userId] then m[userId := RemoveFirst(m[userId], t)] else m
  }

  /** Admission as one step: test the cap and, if there is room, register. */
  function AdmitStep(m: map<int, seq<TaskId>>, userId: int, tier: Tier, t: TaskId): map<int, seq<TaskId>> {
    if HasRoom(m, userId, tier) then Track(m, userId, t) else m
  }

  /** No user has more downloads in flight than the largest cap of any tier. */
  ghost predicate InFlightBounded(m: map<int, seq<TaskId>>) {
    forall u :: u in m ==> |m[u]| <= MaxConcurrent
  }

  /** Admitting as one step keeps a user's count within the cap of the tier
      used, and keeps every list within the largest cap. */
  lemma AdmitKeepsCap(m: map<int, seq<TaskId>>, userId: int, tier: Tier, t: TaskId)
    requires |InFlight(m, userId)| <= ConcurrentLimit(tier)
    ensures |InFlight(AdmitStep(m, userId, tier, t), userId)| <= ConcurrentLimit(tier)
    ensures InFlightBounded(m) ==> InFlightBounded(AdmitStep(m, userId, tier, t))
  {
    HigherTierAllowsMore(tier, Ultra);
  }

  /** Releasing never raises a user's count, so every cap that held still holds. */
  lemma ReleaseKeepsCap(m: map<int, seq<TaskId>>, userId: int, tier: Tier, t: TaskId)
    requires |InFlight(m, userId)| <= ConcurrentLimit(tier)
    ensures |InFlight(Untrack(m, userId, t), userId)| <= ConcurrentLimit(tier)
    ensures InFlightBounded(m) ==> InFlightBounded(Untrack(m, userId, t))
  {
  }

  /** As written, the test (mai.py:582) and the append (mai.py:597) are
      separated by an `await` (mai.py:594). Two requests of one Free user
      whose tests both run before either append end with two downloads in
      flight, twice the cap. */
  lemma InterleavedAdmissionsOvershoot(userId: int, t1: TaskId, t2: TaskId)
    ensures var m0: map<int, seq<TaskId>> := map[];
      && HasRoom(m0, userId, Free)                      // first request's test
      && HasRoom(m0, userId, Free)                      // second request's test
      && |InFlight(Track(Track(m0, userId, t1), userId, t2), userId)| == 2 > ConcurrentLimit(Free)
  {
  }

  /** A download that is admitted and then finishes leaves the user's list
      with the same tasks as before; when no equal task id was in flight,
      exactly the same list. */
  lemma AdmitThenRelease(m: map<int, seq<TaskId>>, userId: int, tier: Tier, t: TaskId)
    requires HasRoom(m, userId, tier)
    ensures var after := Untrack(AdmitStep(m, userId, tier, t), userId, t);
      && multiset(InFlight(after, userId)) == multiset(InFlight(m, userId))
      && (t !in InFlight(m, userId) ==> InFlight(after, userId) == InFlight(m, userId))
  {
    AppendThenRemove(InFlight(m, userId), t);
  }

  /** The user table after `check_subscription(user_id)`. */
  function Checked(users: map<int, UserRecord>, userId: int, now: int): (r: map<int, UserRecord>)
    ensures r.Keys == users.Keys
    ensures userId in users ==> r[userId] == Corrected(users[userId], now)
    ensures forall u :: u in users && u != userId ==> r[u] == users[u]
  {
    if userId in users then users[userId := Corrected(users[userId], now)] else users
  }

  /** On the path through `download_single_story` the record is corrected
      before `download_story` loads it, so its quota test sees the reset
      counter, and a saved story adds one to the corrected counts. */
  lemma SingleStoryUsesCorrectedRecord(users: map<int, UserRecord>, userId: int, now: int,
                                       client: Option<Client>, fetch: Fetch, account: string, storyId: int)
    ensures var r := Decide(FindUser(Checked(users, userId, now), userId), now, client, fetch, userId, account, storyId);
      && (r == NoUser <==> userId !in users)
      && (r == QuotaExceeded <==>
            userId in users && !Admits(DailyLimit(Corrected(users[userId], now).tier), Corrected(users[userId], now).daily))
      && (r.Saved? ==> StoredAfter(Checked(users, userId, now), userId, now, r)
                        == users[userId := Counted(Corrected(users[userId], now))])
  {
    if userId in users {
      CorrectedIdempotent(users[userId], now);
    }
  }

  datatype SingleOutcome = TooManyActive | Ran(result: DownloadResult)

  class StoryBot {
    const db: Database
    const subManager: SubscriptionManager
    const sessionManager: SessionManager
    const downloader: StoryDownloader
    var activeDownloads: map<int, seq<TaskId>>

    ghost predicate Valid()
      reads this, db, sessionManager
    {
      && subManager.db == db
      && downloader.db == db
      && downloader.sessionManager == sessionManager
      && db.Valid()
      && sessionManager.Valid()
      && InFlightBounded(activeDownloads)
    }

    constructor ()
      ensures Valid()
      ensures fresh(db) && fresh(sessionManager) && fresh(downloader)
      ensures db.users == map[] && db.codes == map[]
      ensures sessionManager.activeSessions == [] && activeDownloads == map[]
    {
      var d := new Database();
      db := d;
      subManager := new SubscriptionManager(d);
      var sm := new SessionManager();
      sessionManager := sm;
      downloader := new StoryDownloader(sm, d);
      activeDownloads := map[];
    }

    /** Lines 582-597 taken as one step: test the cap of the tier and, when
        there is room, register its task id. */
    method Admit(userId: int, tier: Tier, taskId: TaskId) returns (admitted: bool)
      requires Valid()
      modifies this
      ensures Valid()
      ensures admitted == HasRoom(old(activeDownloads), userId, tier)
      ensures activeDownloads == AdmitStep(old(activeDownloads), userId, tier, taskId)
    {
      if |InFlight(activeDownloads, userId)| >= ConcurrentLimit(tier) {
        return false;
      }
      AdmitKeepsCap(activeDownloads, userId, tier, taskId);
      activeDownloads := activeDownloads[userId := InFlight(activeDownloads, userId) + [taskId]];
      return true;
    }

    /** The `finally` block: remove a download's task id from its user's list. Where
        Python's `list.remove` would raise (the id is missing) the model
        reports False and changes nothing. */
    method Release(userId: int, taskId: TaskId) returns (removed: bool)
      requires Valid()
      modifies this
      ensures Valid()
      ensures removed == (userId in old(activeDownloads) && taskId in old(activeDownloads)[userId])
      ensures activeDownloads == Untrack(old(activeDownloads), userId, taskId)
    {
      if userId in activeDownloads && taskId in activeDownloads[userId] {
        ReleaseKeepsCap(activeDownloads, userId, Ultra, taskId);
        activeDownloads := activeDownloads[userId := RemoveFirst(activeDownloads[userId], taskId)];
        return true;
      }
      return false;
    }

    /** `download_single_story` without the chat messages: check the
        subscription, admit, download, release. */
    method DownloadSingleStory(userId: int, account: string, storyId: int, now: int, fetch: Fetch)
      returns (outcome: SingleOutcome)
      requires Valid()
      modifies this, db, sessionManager
      ensures Valid()
      ensures var tier := Status(old(db.GetUser(userId)), now).0;
        outcome == TooManyActive <==> !HasRoom(old(activeDownloads), userId, tier)
      ensures var t := TaskId(userId, account, storyId, now);
        activeDownloads == if outcome == TooManyActive then old(activeDownloads)
                           else Untrack(Track(old(activeDownloads), userId, t), userId, t)
      // the registry ends with the user's tasks as they were
      ensures multiset(InFlight(activeDownloads, userId)) == multiset(InFlight(old(activeDownloads), userId))
      ensures outcome == TooManyActive ==> db.users == Checked(old(db.users), userId, now)
      ensures outcome.Ran? ==> outcome.result == Decide(
        FindUser(Checked(old(db.users), userId, now), userId), now,
        old(PeekNext(sessionManager.sessions, sessionManager.activeSessions, sessionManager.rotationIndex)),
        fetch, userId, account, storyId)
      ensures outcome.Ran? ==> db.users == StoredAfter(Checked(old(db.users), userId, now), userId, now, outcome.result)
      ensures db.codes == old(db.codes)
      // the session pool is only read; its cursor moves once, and only when
      // a session is requested from a non-empty pool
      ensures sessionManager.sessions == old(sessionManager.sessions)
      ensures sessionManager.activeSessions == old(sessionManager.activeSessions)
      ensures outcome == TooManyActive || outcome == Ran(NoUser) || outcome == Ran(QuotaExceeded) ==>
        sessionManager.rotationIndex == old(sessionManager.rotationIndex)
      ensures outcome.Ran? && outcome.result != NoUser && outcome.result != QuotaExceeded
              && |sessionManager.activeSessions| > 0 ==>
        sessionManager.rotationIndex == NextIndex(old(sessionManager.rotationIndex), |sessionManager.activeSessions|)
      ensures |sessionManager.activeSessions| == 0 ==> sessionManager.rotationIndex == old(sessionManager.rotationIndex)
    {
      var tier, _ := subManager.CheckSubscription(userId, now);
      var taskId := TaskId(userId, account, storyId, now);
      var admitted := Admit(userId, tier, taskId);
      if !admitted {
        return TooManyActive;
      }
      var r := downloader.DownloadStory(userId, account, storyId, now, fetch);
      var _ := Release(userId, taskId);
      AppendThenRemove(InFlight(old(activeDownloads), userId), taskId);
      return Ran(r);
    }
  }
}
