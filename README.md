# StoryDownloader Pro: a verified model of its core logic

StoryDownloader Pro is a Telegram bot that downloads Telegram stories for its
users. This project models the state logic inside the bot's single module
`mai.py`:

- the subscription engine, which corrects a user's tier and daily counter
  lazily, redeems activation codes and issues them;
- the per-tier policy tables;
- the round-robin pool of backend sessions;
- the gate in front of a story download, with the file extension choice and
  the counter update;
- the per-user registry of downloads in flight;
- the midnight maintenance sweep;
- the recogniser for story links.

Time is an integer number of seconds, passed in as `now`. A whole-day
difference is the floor of the difference divided by 86400, which is what
`timedelta.days` gives. The JSON files of the bot are an in-memory
`Database` class with two maps: users by id, and codes by token. Every
Telegram call is an abstract input:

- a session's authorisation is a boolean;
- what the backend answered for a requested story is a `Fetch` value.

Each stateful part is a class whose methods make the source's field updates
and saves in the source's order. Each method is tied by its postcondition to
a pure function. The properties the source promises are proved as lemmas
about those functions.

Modules, one per file:

- `Wrappers`: the option type.
- `Lists`: Python's `list.remove`.
- `Tiers`: the tier tables.
- `Store`: the records and the database.
- `Subscription`: `SubscriptionManager`.
- `Sessions`: `SessionManager`.
- `Urls`: `parse_story_url`.
- `Downloader`: `download_story`.
- `Bot`: the `active_downloads` registry and `download_single_story`.
- `Maintenance`: `scheduled_tasks`.

### The quota check reads a stale record

`download_story` loads the user's record first. It then calls
`check_subscription`, which may reset the daily counter, demote an expired
tier, and save. The quota test still compares the count of the record loaded
first, against the limit of the tier the check returned. After a successful
download, that first copy is written back with both counters one higher. This
overwrites what the check saved.

The model keeps this behaviour as written:

- `Downloader.QuotaAllows` and `Downloader.StoredAfter` state it;
- `StaleCountRefusesFirstAttemptOfDay` and `SuccessWritesBackStaleCopy` show
  what follows from it.

When the download comes through `download_single_story`, the record has
already been corrected at the same instant. The stale copy is then the
corrected one (`Bot.SingleStoryUsesCorrectedRecord`).

## Model

| member | source | states |
|---|---|---|
| Tiers.DailyLimit | mai.py:41-42 | Free allows 5 a day, Premium 50, and only Ultra has no limit (its `float('inf')`) |
| Tiers.ConcurrentLimit | mai.py:48-50 | Free may run 1 download at once, Premium 3, Ultra 10; every tier at least 1 |
| Tiers.DownloadDelay | mai.py:43-45 | The per-download delay: 5 s for Free, 2 s for Premium, 1 s for Ultra |
| Tiers.HigherTierAllowsMore | mai.py:41-50 | A higher tier has at least the daily quota and concurrency of a lower one, and no longer a delay; no cap exceeds 10 |
| Tiers.AdmitsMonotone | mai.py:325-332 | A count that a lower tier's quota admits is admitted by every higher tier |
| Tiers.UltraAlwaysAdmitted | mai.py:328-332 | The quota test never refuses Ultra, whatever the count |
| Store.WholeDays | mai.py:191 | The whole days between two instants are at least 1 exactly when a full 86400 s have passed |
| Store.FindUser | mai.py:121-130 | The lookup yields the record stored under the id exactly when the id is stored, otherwise None |
| Store.NewUser | mai.py:74-84 | The dataclass defaults: the given id and name, Free with no term, both counters 0, last reset now, nothing followed, silent mode off and quality `best` |
| Store.Database.GetUser | mai.py:121-130 | An id that is stored yields its record (whose own id is that id); any other id yields None |
| Store.Database.SaveUser | mai.py:132-146 | The record is stored under its own id, the other users and all codes stay, and reading it back gives it |
| Store.Database.GetCode | mai.py:148-157 | A stored token yields its record (whose own token is that token); any other token yields None |
| Store.Database.SaveCode | mai.py:159-171 | The record is stored under its own token, the users and the other codes stay, and reading it back gives it |
| Store.Database.SaveAllUsers | mai.py:923 | The users collection becomes the given table, which stores every user under its own id. The codes are untouched |
| Subscription.Corrected | mai.py:184-194 | An expired term becomes Free with no expiry. After a whole day since the last reset the counter is 0 and the reset time is `now`. The result is never expired, and the other fields are untouched |
| Subscription.Status | mai.py:180-196 | An unknown user is (Free, None). An expired term reports (Free, None). Otherwise the stored tier and expiry are reported |
| Subscription.CorrectedIdempotent | mai.py:184-194 | A second check at the same instant changes nothing |
| Subscription.CorrectedIsConsistent | mai.py:184-188 | If a paid tier has a term, then after correction a null or past expiry always comes with Free |
| Subscription.NewUserIsCurrent | mai.py:490-493 | A record just created by /start is already current: the check leaves it as it is and reports Free with no term |
| Subscription.SubscriptionManager.CheckSubscription | mai.py:179-196 | Returns the Status of the stored record and stores its corrected version. Unknown users and all codes are untouched |
| Subscription.Redeem | mai.py:199-220 | The rejections come in order, each exactly under its condition: unknown code, expired code, uses exhausted, unknown user. A rejection changes neither collection. A success gives the code's tier with expiry `now + duration` days and adds exactly one use. It keeps used <= max and keys the records by their own ids |
| Subscription.SubscriptionManager.ActivateCode | mai.py:198-222 | Result and both collections are exactly those of Redeem on the stored collections |
| Subscription.RedeemedStatus | mai.py:213-215 | With a non-negative duration, a redeemed code is in force at once: the next check reports its tier and the new expiry |
| Subscription.RedeemedTermEnds | mai.py:185-187 | After the granted term has passed, the user is Free again |
| Subscription.NewCode | mai.py:227-237 | The record has the given token, tier, duration and maximum, no uses, and `created_at = now`. It has no expiry exactly when `expires_in_days` is None or 0, else expiry `now + days` |
| Subscription.NewCodeRedeemable | mai.py:199-220 | A fresh code with at least one use, not expired, redeemed by a known user, activates its tier |
| Subscription.SingleUseCodeExhausted | mai.py:206-207 | A single-use code works once. Before the code expires, a second redemption by anyone is refused as "limit reached" and changes nothing |
| Subscription.SubscriptionManager.CreateCode | mai.py:224-240 | Stores NewCode under the given token and returns the token, which has the 12-hex-digit code format. Users are untouched and, for a non-negative maximum, a store with used <= max keeps it |
| Lists.RemoveFirst | mai.py:275 | Like `list.remove`: one occurrence fewer if present, otherwise unchanged. Other elements are kept |
| Lists.IndexOf | mai.py:275 | The position holds the element and no earlier position does |
| Lists.RemoveFirstKeepsOrder | mai.py:275 | Before the first occurrence the result agrees with the list; after it every element has moved down one place |
| Lists.RemoveFirstSplices | mai.py:275 | The result is the list with exactly its first occurrence of the element cut out |
| Lists.AppendThenRemove | mai.py:597 | Appending a fresh element and then removing it gives back the original list |
| Sessions.NextIndex | mai.py:266 | The cursor stays in range. It moves one forward, and from the last position to 0 |
| Sessions.EveryIndexOnce | mai.py:262-268 | n consecutive advances over n names visit every position exactly once, from any cursor |
| Sessions.RotationIsFair | mai.py:262-268 | k = q·n + r calls (r < n) over n names, from any cursor, hand out each position q or q+1 times, and exactly q times when r = 0. That is at least ⌊k/n⌋ and at most ⌈k/n⌉ times |
| Sessions.FullRoundAddsOne | mai.py:266-267 | A full round of n calls hands out each position exactly once more |
| Sessions.FullRoundReturns | mai.py:266-267 | A full round of n advances brings a cursor in range back to where it was |
| Sessions.CallsCount | mai.py:262-268 | The helper behind RotationIsFair: its count of q rounds of n calls followed by r more is q·n + r |
| Sessions.ThreeSessionsWrapAround | mai.py:266 | With three sessions and the cursor at 0, the next three calls land on positions 1, 2 and 0 |
| Sessions.PeekNext | mai.py:263-268 | None when the list is empty. When every listed name is connected, some client is returned, and it is the connection of a listed name |
| Sessions.SessionManager.GetNextClient | mai.py:262-268 | With an empty list: None and the cursor is unchanged. Otherwise the cursor advances to `(i+1) mod n` and the client of the name under it is returned. The map and list never change |
| Sessions.SessionManager.AddSession | mai.py:249-260 | Succeeds exactly when authorised. On success the name maps to the new client and is appended to the list; on failure nothing changes |
| Sessions.SessionManager.AddSessionAsWritten | mai.py:249-251 | As written, the call always reports failure |
| Sessions.SessionManager.RemoveSession | mai.py:270-277 | An unknown name: False and nothing changes. A known name: True, the name leaves the map, and one occurrence leaves the list |
| Sessions.DuplicateNameLeavesDanglingEntry | mai.py:253-255 | A name added twice and removed once stays listed without a connection, and the next call hands out nothing |
| Urls.WordRun | mai.py:289-290 | The longest prefix of ASCII letters, digits and `_` |
| Urls.DigitRun | mai.py:289-290 | The longest prefix of decimal digits |
| Urls.MatchStoryUrl | mai.py:287-297 | A match covers a prefix of the text: the scheme, a non-empty account, the separator and a maximal non-empty digit run |
| Urls.MatchRendered | mai.py:287-297 | Every text that starts with a well-formed link, not followed by a digit, is recognised as exactly that link. The `/s/` and plain forms are never confused |
| Urls.ParseStoryUrl | mai.py:287-297 | None exactly when nothing matches. Otherwise the account group and the value of the digit group |
| Urls.ExampleStoryForm | mai.py:289 | `https://t.me/news_24/s/123` gives (`news_24`, 123) |
| Urls.ExamplePlainForm | mai.py:290 | `http://t.me/news/45?x` gives (`news`, 45) |
| Urls.ExampleNoScheme | mai.py:287-297 | A link without a scheme gives (None, None) |
| Downloader.LastSegment | mai.py:365 | `split(sep)[-1]`: a suffix with no separator in it, preceded by the separator unless it is the whole text |
| Downloader.LastSegmentAfterSeparator | mai.py:365 | The text after the last separator is the last segment |
| Downloader.Extension | mai.py:357-372 | None exactly for media that is neither a photo nor a document. A photo gives `jpg`. A document gives `bin`, `mp4` or a suffix of its MIME type, never one with `/` in it and never `octet-stream` |
| Downloader.ExtensionOfSubtype | mai.py:364-365 | Any MIME type `p/t` whose subtype `t` has no `/` and is not `octet-stream` gives `t`, whatever the attributes |
| Downloader.ExtensionOfBareMime | mai.py:364-365 | A non-empty MIME type without `/` that is not `octet-stream` is the extension as it is |
| Downloader.ExtensionWithoutMime | mai.py:364 | A missing or empty MIME type gives `bin`, whatever the attributes |
| Downloader.ExtensionOfOctetStream | mai.py:366-367 | Any `p/octet-stream`, and a bare `octet-stream`, gives `mp4` if the attributes name Video or Audio, otherwise `bin` |
| Downloader.ExtensionAsWritten | mai.py:362-367 | As written the attributes never matter: every document gets the extension it would get with no attributes. It differs from the intended rule only by giving `bin` where that rule gives `mp4` |
| Downloader.VideoStreamSavedAsBin | mai.py:367 | An `application/octet-stream` document marked Video is saved as `bin` as written and as `mp4` under the intended rule |
| Downloader.FetchOutcome | mai.py:339-386 | The file is saved exactly for a fetched photo or document, under the account, story, time and chosen extension. "Story not found" exactly when the story is missing |
| Downloader.Decide | mai.py:317-386 | Tests in order: user, then quota on the loaded count, then a session, then the story and media. Each refusal holds exactly under its condition. A session is required before any backend answer matters |
| Downloader.Counted | mai.py:375-376 | Both counters go up by one and nothing else changes |
| Downloader.StoredAfter | mai.py:318-377 | Other users are untouched. On success the loaded copy is stored, counted. Otherwise the corrected record `check_subscription` saved stays |
| Downloader.StoryDownloader.DownloadStory | mai.py:317-386 | The result is Decide on the loaded record and the next pooled client, and the store becomes StoredAfter. No session is requested when the user is unknown or over quota; the cursor then stays, as it does for an empty pool, and otherwise moves one step |
| Downloader.StoryDownloader.FetchAndSave | mai.py:339-379 | The result is FetchOutcome of the backend's answer. Only a save stores the loaded copy with both counters raised; every failure leaves the store as it was |
| Downloader.UltraNeverRefusedOnQuota | mai.py:325-332 | An Ultra user is never refused on quota |
| Downloader.FreeUserAtLimitRefused | mai.py:331-332 | A Free user at 5 downloads within 24 hours of the last reset is refused on quota, and the store is unchanged |
| Downloader.StaleCountRefusesFirstAttemptOfDay | mai.py:318-332 | A Free user who reached 5 yesterday is refused on the first attempt of a new day, although the corrected count is 0 |
| Downloader.SuccessWritesBackStaleCopy | mai.py:318-377 | After a success, the tier, expiry and reset time stored are those loaded before the correction |
| Downloader.SuccessCountsOnce | mai.py:375-377 | On success, daily and total each grow by exactly 1 and nothing else in the record changes |
| Bot.Track | mai.py:597 | The user's list gains the new id at its end, and the other users are untouched |
| Bot.Untrack | mai.py:622-624 | The user's tasks lose exactly one copy of the given id if it is there, and otherwise the registry is unchanged. The other users are untouched |
| Bot.AdmitKeepsCap | mai.py:582-597 | An atomic admission keeps a user's count within the tier's cap, and no list exceeds 10 |
| Bot.ReleaseKeepsCap | mai.py:622-624 | A release never raises a user's count, so the tier's cap and the bound of 10 still hold |
| Bot.InterleavedAdmissionsOvershoot | mai.py:582-597 | A Free user whose two requests both pass the test before either appends ends up with 2 in flight, over the cap of 1 |
| Bot.AdmitThenRelease | mai.py:597-624 | An admitted and finished download leaves the user's tasks as they were |
| Bot.Checked | mai.py:579 | The user table after `check_subscription`: only the user's own record is replaced, by its corrected version |
| Bot.SingleStoryUsesCorrectedRecord | mai.py:579-603 | Through `download_single_story`, the quota is compared with the corrected count, and a success stores the corrected record counted |
| Bot.StoryBot.Admit | mai.py:582-597 | Admits exactly when the user has fewer tasks than the tier's cap, and then appends the new id |
| Bot.StoryBot.Release | mai.py:621-624 | Removes one occurrence of the given id when the user has it, and reports whether it did |
| Bot.StoryBot.DownloadSingleStory | mai.py:574-624 | Refused exactly when the user's tasks reach the cap of the checked tier. Otherwise the download runs on the corrected record and the registry ends with the same tasks. The session pool is unchanged; its cursor moves one step exactly when a session is requested from a non-empty pool |
| Maintenance.ResetPhase | mai.py:916-923 | Every user's counter is reset exactly as `check_subscription` would reset it; the set of users is unchanged |
| Maintenance.ExpiryPhase | mai.py:925-939 | Every expired user is demoted to Free with no expiry, and exactly the expired users are notified |
| Maintenance.PruneCache | mai.py:944-948 | Keeps exactly the entries younger than 24 hours, unchanged |
| Maintenance.PruneIdempotent | mai.py:944-948 | Pruning twice at one instant is pruning once |
| Maintenance.SweepIsCorrection | mai.py:916-939 | The sweep does to every user exactly what `check_subscription` does |
| Maintenance.SweepIdempotent | mai.py:916-939 | After the sweep no user is expired, and a second sweep at the same instant changes nothing |
| Maintenance.SweepKeepsKeys | mai.py:916-942 | Both loops keep every record under its own id |
| Maintenance.ScheduledTasks | mai.py:914-948 | The users become the reset-then-demoted table, the codes stay, the notified users are the expired ones, and the cache is pruned |

## Left out

- Telethon calls are abstract inputs, because their behaviour belongs to the
  library and the Telegram servers:
  - connecting and `is_user_authorized` are the `authorized` flag;
  - `get_entity`, `GetStoriesByIDRequest` and `download_media` are the
    `Fetch` value;
  - `disconnect`, `send_message` and `send_file` are not modelled; the model
    returns the set of users to notify instead.
- JSON persistence, ISO date formatting and directory creation are not
  modelled: the store is two in-memory maps. Users are keyed by integer ids
  where the JSON file uses their string form.
- The SHA-256 token of `create_code` is a foreign hash over the wall clock.
  It is a parameter of the required shape.
- Subscription.SubscriptionManager.CreateCode: requires a token of the digest's
  shape, which the source produces itself rather than taking from callers.
- The FloodWait sleep-and-retry in `download_story` is left out: it is
  timing driven by the server and unbounded recursion.
- Each call to `datetime.now()` within one operation is the same `now`. The
  source reads the clock several times, microseconds apart.
- Overflow of `datetime` for huge durations is not modelled, because all
  integers here are unbounded.
- Negative durations and `max_uses` are accepted as the source accepts them.
- Urls.DigitRun: `\d` in Python also matches non-ASCII decimal digits; the
  model recognises ASCII digits only.
- Downloader.Extension: Telethon attributes are objects, so the source's
  `'Video' in doc.attributes` never holds. The model takes the attribute
  names as strings and uses the intended test; the finding below models the
  rule as written.
- Bot.StoryBot.Release: when the id is missing, `list.remove` raises
  `ValueError`. The model reports False and changes nothing.
- Bot.StoryBot.Admit: takes the cap test and the append as one step. The
  `await` between them in the source (mai.py:594) is the subject of the
  finding below.
- Cooperative scheduling, the scheduler's cron trigger and races on code
  redemption are not modelled: every operation is atomic. The one exception
  is the admission race shown by `Bot.InterleavedAdmissionsOvershoot`.
- The progress bar, progress updates, all reply texts, buttons, the help,
  panel and stats handlers, the preview flows and `UIManager` lie outside
  the core.
- The message handler drops a story id of 0, because it reads the id for its
  truthiness. It lies outside the core.
- The download cache is only pruned: nothing in the source fills it.
- `DownloadDelay` is a table only, because the source never applies the
  delay.

## Findings

| source | as written | input that shows it | evidently intended | confidence | as-written member | corrected member |
|---|---|---|---|---|---|---|
| mai.py:251 | `StringSession` is used but never imported, so `add_session` raises `NameError`, the handler catches it, and the call always returns False | any session string and name | import `StringSession`, so that an authorised session is registered | high; not executed | Sessions.SessionManager.AddSessionAsWritten | Sessions.SessionManager.AddSession |
| mai.py:582-597 | the cap test and the append are separated by `await event.reply(...)`, so two requests of one user can both pass the test | a Free user sends two links at once; both tests see 0 tasks, and both append | test and register without a suspension point in between, so the cap holds | medium; not executed | Bot.InterleavedAdmissionsOvershoot | Bot.StoryBot.Admit |
| mai.py:367 | `any(attr in doc.attributes for attr in ['Video', 'Audio'])` looks for strings among Telethon's attribute objects, so it is always False | a video story stored as `application/octet-stream` with a video attribute | save such a document as `.mp4` when it carries a video or audio attribute | medium; not executed | Downloader.ExtensionAsWritten | Downloader.Extension |
