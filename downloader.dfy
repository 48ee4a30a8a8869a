/** `StoryDownloader.download_story`: the gate in front of a download (user,
    quota, session, story, media kind), the choice of file name and the
    counter update. The Telegram calls are replaced by an abstract `Fetch`
    value: what the backend answered for the requested story. */
module Downloader {
  import opened Wrappers
  import opened Tiers
  import opened Store
  import opened Subscription
  import opened Sessions

  /** The media of a story: a photo, a document with its MIME type and the
      names of its attributes, or anything else. */
  datatype Media = Photo | Document(mimeType: Option<string>, attributes: seq<string>) | OtherMedia

  /** What the backend answered: a story with its media, no story under the
      id, or an exception from a Telegram call. */
  datatype Fetch = Fetched(media: Media) | NoStory | BackendError

  /** An advisory cache entry (the source never fills the cache). */
  datatype CacheEntry = CacheEntry(timestamp: int, payload: string)

  /** The file `download_story` writes: `downloads/<user>/<account>_<story>_<stamp>.<ext>`. */
  datatype SavedFile = SavedFile(userId: int, account: string, storyId: int, stamp: int, ext: string)

  datatype FailReason = StoryNotFound | UnsupportedMedia | BackendFailure

  /** The outcomes of `download_story`. NoUser and every Failed reason are the
      source's `return None`; QuotaExceeded and NoActiveSessions are the
      exceptions it raises to its caller. */
  datatype DownloadResult =
    | Saved(file: SavedFile)
    | NoUser
    | QuotaExceeded
    | NoActiveSessions
    | Failed(reason: FailReason)

  /** `s.split(sep)[-1]`: the text after the last separator, or all of it. */
  function LastSegment(s: string, sep: char): (r: string)
    ensures sep !in r
    ensures |r| <= |s| && r == s[|s| - |r|..]
    ensures sep !in s ==> r == s
    ensures |r| < |s| ==> s[|s| - |r| - 1] == sep
  {
    if |s| == 0 || s[|s| - 1] == sep then []
    else
      var r := LastSegment(s[..|s| - 1], sep) + [s[|s| - 1]];
      assert s[..|s| - 1][|s| - |r|..] + [s[|s| - 1]] == s[|s| - |r|..];
      r
  }

  /** The file extension for a story's media, or None for a media kind that
      is neither a photo nor a document ("Unsupported media type"). A missing
      or empty MIME type counts as "bin"; "octet-stream" becomes "mp4" when
      the attributes name Video or Audio, "bin" otherwise. */
  function Extension(media: Media): (r: Option<string>)
    ensures r.None? <==> media.OtherMedia?
    ensures media.Photo? ==> r == Some("jpg")
    ensures r.Some? ==> '/' !in r.value && r.value != "octet-stream"
    ensures media.Document? ==>
      var mime := media.mimeType.GetOr("");
      || r.value == "bin" || r.value == "mp4"
      || (|r.value| <= |mime| && r.value == mime[|mime| - |r.value|..])
  {
    match media
    case Photo => Some("jpg")
    case OtherMedia => None
    case Document(mt, attrs) =>
      var mime := if mt.GetOr("") == "" then "bin" else mt.value;
      var ext := LastSegment(mime, '/');
      if ext == "octet-stream" then
        Some(if "Video" in attrs || "Audio" in attrs then "mp4" else "bin")
      else Some(ext)
  }

  /** The user record after a successful download: the copy loaded at the
      start of the call, with both counters one higher. */
  function Counted(u: UserRecord): (r: UserRecord)
    ensures r.daily == u.daily + 1 && r.total == u.total + 1
    ensures r.(daily := u.daily, total := u.total) == u
  {
    u.(daily := u.daily + 1, total := u.total + 1)
  }

  /** What happens once a connection is in hand. */
  function FetchOutcome(fetch: Fetch, userId: int, account: string, storyId: int, now: int): (r: DownloadResult)
    ensures r.Saved? || r.Failed?
    ensures r.Saved? <==> fetch.Fetched? && !fetch.media.OtherMedia?
    ensures r.Saved? ==> r.file == SavedFile(userId, account, storyId, now, Extension(fetch.media).value)
    ensures r == Failed(StoryNotFound) <==> fetch == NoStory
  {
    match fetch
    case BackendError => Failed(BackendFailure)
    case NoStory => Failed(StoryNotFound)
    case Fetched(media) =>
      match Extension(media)
      case None => Failed(UnsupportedMedia)
      case Some(ext) => Saved(SavedFile(userId, account, storyId, now, ext))
  }

  /** The source's quota test: the daily count of the record LOADED at the
      start of the call, against the limit of the tier `check_subscription`
      reports. */
  predicate QuotaAllows(loaded: UserRecord, now: int) {
    Admits(DailyLimit(Corrected(loaded, now).tier), loaded.daily)
  }

  /** The outcome of `download_story`, from the record it loads, the
      connection the pool would hand out next and the backend's answer. The
      checks come in the source's order: user, quota, session, story. */
  function Decide(loaded: Option<UserRecord>, now: int, client: Option<Client>, fetch: Fetch,
                  userId: int, account: string, storyId: int): (r: DownloadResult)
    ensures r == NoUser <==> loaded.None?
    ensures r == QuotaExceeded <==> loaded.Some? && !QuotaAllows(loaded.value, now)
    ensures r == NoActiveSessions <==> loaded.Some? && QuotaAllows(loaded.value, now) && client.None?
    ensures r.Saved? || r.Failed? <==> loaded.Some? && QuotaAllows(loaded.value, now) && client.Some?
    ensures r.Saved? || r.Failed? ==> r == FetchOutcome(fetch, userId, account, storyId, now)
  {
    if loaded.None? then NoUser
    else if !QuotaAllows(loaded.value, now) then QuotaExceeded
    else if client.None? then NoActiveSessions
    else FetchOutcome(fetch, userId, account, storyId, now)
  }

  /** The users collection after `download_story`: untouched for an unknown
      user; on success the loaded copy with both counters raised (which
      overwrites what `check_subscription` saved in between); otherwise the
      corrected record `check_subscription` saved. */
  function StoredAfter(users: map<int, UserRecord>, userId: int, now: int, r: DownloadResult): (m: map<int, UserRecord>)
    ensures m.Keys == users.Keys
    ensures forall k :: k in users && k != userId ==> m[k] == users[k]
    ensures userId in users && r.Saved? ==> m[userId] == Counted(users[userId])
    ensures userId in users && !r.Saved? ==> m[userId] == Corrected(users[userId], now)
  {
    if userId !in users then users
    else if r.Saved? then users[userId := Counted(users[userId])]
    else users[userId := Corrected(users[userId], now)]
  }

  class StoryDownloader {
    const sessionManager: SessionManager
    const db: Database
    var cache: map<string, CacheEntry>

    constructor (sessionManager: SessionManager, db: Database)
      ensures this.sessionManager == sessionManager && this.db == db && cache == map[]
    {
      this.sessionManager := sessionManager;
      this.db := db;
      cache := map[];
    }

    /** `download_story` without the FloodWait retry. */
    method DownloadStory(userId: int, username: string, storyId: int, now: int, fetch: Fetch)
      returns (r: DownloadResult)
      requires db.Valid()
      modifies db, sessionManager
      ensures db.Valid()
      ensures r == Decide(old(db.GetUser(userId)), now,
                          old(PeekNext(sessionManager.sessions, sessionManager.activeSessions, sessionManager.rotationIndex)),
                          fetch, userId, username, storyId)
      ensures db.users == StoredAfter(old(db.users), userId, now, r) && db.codes == old(db.codes)
      ensures sessionManager.sessions == old(sessionManager.sessions)
      ensures sessionManager.activeSessions == old(sessionManager.activeSessions)
      // no session is requested before the user and quota checks pass
      ensures r == NoUser || r == QuotaExceeded ==> sessionManager.rotationIndex == old(sessionManager.rotationIndex)
      ensures r != NoUser && r != QuotaExceeded && |sessionManager.activeSessions| > 0 ==>
        sessionManager.rotationIndex == NextIndex(old(sessionManager.rotationIndex), |sessionManager.activeSessions|)
      // an empty pool hands out nothing and leaves the cursor where it was
      ensures |sessionManager.activeSessions| == 0 ==> sessionManager.rotationIndex == old(sessionManager.rotationIndex)
    {
      var loaded := db.GetUser(userId);
      if loaded.None? {
        return NoUser;
      }
      var userData := loaded.value;
      var subs := new SubscriptionManager(db);
      var tier, _ := subs.CheckSubscription(userId, now);
      if !Admits(DailyLimit(tier), userData.daily) {
        return QuotaExceeded;
      }
      var client := sessionManager.GetNextClient();
      if client.None? {
        return NoActiveSessions;
      }
      r := FetchAndSave(userData, fetch, userId, username, storyId, now);
    }

    /** The part of `download_story` after a session is in hand: fetch the
        story, pick the extension and, on success, save the loaded copy of the
        user with both counters raised. */
    method FetchAndSave(userData: UserRecord, fetch: Fetch, userId: int, username: string,
                        storyId: int, now: int) returns (r: DownloadResult)
      requires db.Valid() && userData.userId == userId
      modifies db
      ensures db.Valid()
      ensures r == FetchOutcome(fetch, userId, username, storyId, now)
      ensures db.users == if r.Saved? then old(db.users)[userId := Counted(userData)] else old(db.users)
      ensures db.codes == old(db.codes)
    {
      match fetch {
        case BackendError =>
          return Failed(BackendFailure);
        case NoStory =>
          return Failed(StoryNotFound);
        case Fetched(media) =>
          // photo: ".jpg"; document: from its MIME type; anything else is refused
          var ext := Extension(media);
          if ext.None? {
            return Failed(UnsupportedMedia);
          }
          var file := SavedFile(userId, username, storyId, now, ext.value);
          db.SaveUser(Counted(userData));
          return Saved(file);
      }
    }
  }

  // ------------------------------------------------ properties of the gate

  /** Ultra is never refused on quota. */
  lemma UltraNeverRefusedOnQuota(u: UserRecord, now: int, client: Option<Client>, fetch: Fetch,
                                 account: string, storyId: int)
    requires Corrected(u, now).tier == Ultra
    ensures Decide(Some(u), now, client, fetch, u.userId, account, storyId) != QuotaExceeded
  {
  }

  /** A Free user at the limit of 5, checked within 24 hours of the last
      reset, is refused on quota and the store is left
      exactly as it was. */
  lemma FreeUserAtLimitRefused(users: map<int, UserRecord>, userId: int, now: int,
                               client: Option<Client>, fetch: Fetch, account: string, storyId: int)
    requires userId in users
    requires var u := users[userId];
      u.tier == Free && u.daily == 5 && !IsExpired(u.ends, now)
      && u.lastReset <= now < u.lastReset + SecondsPerDay
    ensures var r := Decide(Some(users[userId]), now, client, fetch, userId, account, storyId);
      r == QuotaExceeded && StoredAfter(users, userId, now, r) == users
  {
    assert Corrected(users[userId], now) == users[userId];
  }

  /** The quota is compared with the count of the record loaded BEFORE `check_subscription`
      resets the counter: a Free user who reached the limit yesterday is
      refused on the first attempt of the new day, although the corrected
      record (which the same call saves) has a count of zero. */
  lemma StaleCountRefusesFirstAttemptOfDay(u: UserRecord, now: int, client: Option<Client>,
                                           fetch: Fetch, account: string, storyId: int)
    requires u.tier == Free && u.ends.None? && u.daily == 5
    requires now - u.lastReset >= SecondsPerDay
    ensures Decide(Some(u), now, client, fetch, u.userId, account, storyId) == QuotaExceeded
    ensures Corrected(u, now).daily == 0 && Admits(DailyLimit(Corrected(u, now).tier), Corrected(u, now).daily)
  {
  }

  /** A successful download writes back the copy loaded before the
      correction: an expired paid term is restored, and on the first
      download of a new day the old reset stamp is kept, so the next check
      zeroes the counter again and that download is not counted for the day. */
  lemma SuccessWritesBackStaleCopy(users: map<int, UserRecord>, userId: int, now: int,
                                   f: SavedFile)
    requires userId in users
    ensures var stored := StoredAfter(users, userId, now, Saved(f))[userId];
      && stored.tier == users[userId].tier && stored.ends == users[userId].ends
      && stored.lastReset == users[userId].lastReset
      && (now - users[userId].lastReset >= SecondsPerDay ==> Corrected(stored, now).daily == 0)
  {
  }

  /** On success nothing but the two counters differs from the loaded record. */
  lemma SuccessCountsOnce(users: map<int, UserRecord>, userId: int, now: int, f: SavedFile)
    requires userId in users
    ensures var stored := StoredAfter(users, userId, now, Saved(f))[userId];
      && stored.daily == users[userId].daily + 1
      && stored.total == users[userId].total + 1
      && stored.(daily := users[userId].daily, total := users[userId].total) == users[userId]
  {
  }

  /** The segment after a separator that is not followed by another one. */
  lemma {:induction false} LastSegmentAfterSeparator(p: string, sep: char, t: string)
    requires sep !in t
    ensures LastSegment(p + [sep] + t, sep) == t
  {
    var s := p + [sep] + t;
    if |t| > 0 {
      assert s[..|s| - 1] == p + [sep] + t[..|t| - 1];
      LastSegmentAfterSeparator(p, sep, t[..|t| - 1]);
      assert t == t[..|t| - 1] + [t[|t| - 1]];
    }
  }

  /** A MIME type `p/t` whose subtype is not "octet-stream" is saved under
      its subtype, whatever the attributes say. */
  lemma ExtensionOfSubtype(p: string, t: string, attrs: seq<string>)
    requires '/' !in t && t != "octet-stream"
    ensures Extension(Document(Some(p + "/" + t), attrs)) == Some(t)
  {
    LastSegmentAfterSeparator(p, '/', t);
  }

  /** A MIME type without any `/` is used whole as the extension. */
  lemma ExtensionOfBareMime(mime: string, attrs: seq<string>)
    requires mime != "" && '/' !in mime && mime != "octet-stream"
    ensures Extension(Document(Some(mime), attrs)) == Some(mime)
  {
  }

  /** A missing or empty MIME type is saved as ".bin". */
  lemma ExtensionWithoutMime(mt: Option<string>, attrs: seq<string>)
    requires mt == None || mt == Some("")
    ensures Extension(Document(mt, attrs)) == Some("bin")
  {
    assert LastSegment("bin", '/') == "bin";
  }

  /** Any generic byte stream, with or without a type prefix, becomes ".mp4"
      when the attributes name Video or Audio and ".bin" otherwise. */
  lemma ExtensionOfOctetStream(p: string, attrs: seq<string>)
    ensures var expected := Some(if "Video" in attrs || "Audio" in attrs then "mp4" else "bin");
      && Extension(Document(Some(p + "/" + "octet-stream"), attrs)) == expected
      && Extension(Document(Some("octet-stream"), attrs)) == expected
  {
    LastSegmentAfterSeparator(p, '/', "octet-stream");
  }

  /** The extension rule as written (mai.py:367): the test looks for the
      strings "Video" and "Audio" among the attribute objects Telethon hands
      back, so it never succeeds and an octet-stream document is always saved
      as ".bin". The attribute names of `Media` stand for those objects. */
  function ExtensionAsWritten(media: Media): (r: Option<string>)
    ensures media.Document? ==> r == Extension(Document(media.mimeType, []))
    ensures !media.Document? ==> r == Extension(media)
    ensures r != Extension(media) ==> r == Some("bin") && Extension(media) == Some("mp4")
  {
    match media
    case Photo => Some("jpg")
    case OtherMedia => None
    case Document(mt, _) =>
      var mime := if mt.GetOr("") == "" then "bin" else mt.value;
      var ext := LastSegment(mime, '/');
      if ext == "octet-stream" then Some("bin") else Some(ext)
  }

  /** An octet-stream video is saved as ".bin" as written, and as ".mp4"
      under the rule the code evidently means. */
  lemma VideoStreamSavedAsBin()
    ensures var media := Document(Some("application/octet-stream"), ["Video"]);
      && ExtensionAsWritten(media) == Some("bin")
      && Extension(media) == Some("mp4")
  {
    assert "application/octet-stream" == "application" + "/" + "octet-stream";
    ExtensionOfOctetStream("application", ["Video"]);
    ExtensionOfOctetStream("application", []);
  }
}
