/** Subscription tiers and the fixed per-tier policy tables of `Config`
    (daily quota, concurrent downloads, per-download delay). */
module Tiers {

  datatype Tier = Free | Premium | Ultra

  /** A daily quota: a bound, or none at all (the source writes Ultra's quota as
      `float('inf')`). */
  datatype Limit = Bounded(n: nat) | Unlimited

  /** Position of a tier in the upgrade order Free < Premium < Ultra. */
  function Rank(t: Tier): nat {
    match t
    case Free => 0
    case Premium => 1
    case Ultra => 2
  }

  /** The daily download quota of a tier: 5 for Free, 50 for Premium, none for Ultra. */
  function DailyLimit(t: Tier): (l: Limit)
    ensures l.Unlimited? <==> t == Ultra
    ensures t == Free ==> l == Bounded(5)
    ensures t == Premium ==> l == Bounded(50)
  {
    match t
    case Free => Bounded(5)
    case Premium => Bounded(50)
    case Ultra => Unlimited
  }

  /** The number of downloads a user of the tier may run at once. */
  function ConcurrentLimit(t: Tier): (n: nat)
    ensures n >= 1
    ensures t == Free ==> n == 1
    ensures t == Premium ==> n == 3
    ensures t == Ultra ==> n == 10
  {
    match t
    case Free => 1
    case Premium => 3
    case Ultra => 10
  }

  /** The largest concurrency cap of any tier. */
  const MaxConcurrent: nat := 10

  /** The pause, in seconds, configured between downloads of the tier. */
  function DownloadDelay(t: Tier): (d: nat)
    ensures d >= 1
    ensures t == Free ==> d == 5
    ensures t == Premium ==> d == 2
    ensures t == Ultra ==> d == 1
  {
    match t
    case Free => 5
    case Premium => 2
    case Ultra => 1
  }

  /** The source's quota test `count >= limit` fails, that is, one more
      download is allowed. Against `float('inf')` the test never holds. */
  predicate Admits(l: Limit, count: nat) {
    match l
    case Unlimited => true
    case Bounded(n) => count < n
  }

  /** `a` allows at least as much per day as `b`. */
  predicate AtLeast(a: Limit, b: Limit) {
    a.Unlimited? || (b.Bounded? && a.n >= b.n)
  }

  /** A higher tier never allows less: a larger daily quota, at least as many
      concurrent downloads and no longer a delay. */
  lemma HigherTierAllowsMore(lo: Tier, hi: Tier)
    requires Rank(lo) <= Rank(hi)
    ensures AtLeast(DailyLimit(hi), DailyLimit(lo))
    ensures ConcurrentLimit(lo) <= ConcurrentLimit(hi) <= MaxConcurrent
    ensures DownloadDelay(hi) <= DownloadDelay(lo)
  {
  }

  /** Whatever a lower tier admits, a higher tier admits too. */
  lemma AdmitsMonotone(lo: Tier, hi: Tier, count: nat)
    requires Rank(lo) <= Rank(hi)
    requires Admits(DailyLimit(lo), count)
    ensures Admits(DailyLimit(hi), count)
  {
    HigherTierAllowsMore(lo, hi);
  }

  /** Ultra is never refused on quota, whatever the count. */
  lemma UltraAlwaysAdmitted(count: nat)
    ensures Admits(DailyLimit(Ultra), count)
  {
  }
}
