/** The vocabulary shared by every copy of the sliding-window limiter: time stamps,
    pruning, per-key rules, and the counting argument behind every window bound.

    A clock reading is an integer tick.  A window of length W that starts at `a` is the
    half-open interval (a, a + W]: the limiter drops a stamp `t` as soon as t <= now - W.
 */
module SlidingWindow {

  /** The tiers, in the order in which a request meets them. */
  datatype Tier =
    | WebhookIp | Ip
    | PublicView | StoryboardPublicView | StoryboardDownloadIp
    | Login | LoginHourly
    | User
    | Generation | GithubExport | GithubRepoList | GithubSync | GithubIncrementPush | Clarify | PdfExport
    | AgentInstructions | ShareToggle | BillingCheckout | BillingAdminCorrection | StoryboardGenerate
    | StoryboardSectionRegenerate | StoryboardShareToggle | StoryboardDownloadUser

  /** A rate-limit key: the tier that charges it and whom it charges (an address, a user id). */
  datatype Key = Key(tier: Tier, subject: string)

  /** What one tier enforces on each of its keys. */
  datatype Rule = Rule(limit: int, window: nat)

  /** One charge of one key.  `member` names the charge inside a Redis sorted set. */
  datatype Call = Call(key: Key, now: int, member: string)

  /** The clock never goes backwards along `calls`, nor before `last`. */
  ghost predicate Monotone(calls: seq<Call>, last: int) {
    && (forall i :: 0 <= i < |calls| ==> last <= calls[i].now)
    && (forall i, j :: 0 <= i < j < |calls| ==> calls[i].now <= calls[j].now)
  }

  /** The rule of every key; the tiers make it total and constant over a run. */
  type Rules = Key -> Rule

  /** Every tier's limit and window are at least one: `_positive_int` and the `> 0` guard
      see to it. */
  ghost predicate Positive(rules: Rules) {
    forall k :: rules(k).limit >= 1 && rules(k).window >= 1
  }

  /** The stamps later than `start`, in order. */
  function Prune(ts: seq<int>, start: int): seq<int> {
    if ts == [] then []
    else
      var n := |ts| - 1;
      Prune(ts[..n], start) + (if ts[n] > start then [ts[n]] else [])
  }

  lemma PruneAppend(ts: seq<int>, t: int, start: int)
    ensures Prune(ts + [t], start) == Prune(ts, start) + (if t > start then [t] else [])
  {
    assert (ts + [t])[..|ts|] == ts;
  }

  lemma PruneNothing(start: int)
    ensures Prune([], start) == []
  {}

  /** Pruning twice is pruning once, at the later start. */
  lemma {:induction false} PrunePrune(ts: seq<int>, s1: int, s2: int)
    requires s1 <= s2
    ensures Prune(Prune(ts, s1), s2) == Prune(ts, s2)
  {
    if ts != [] {
      var n := |ts| - 1;
      PrunePrune(ts[..n], s1, s2);
      if ts[n] > s1 {
        PruneAppend(Prune(ts[..n], s1), ts[n], s2);
      } else {
        assert Prune(ts, s1) == Prune(ts[..n], s1);
      }
    }
  }

  /** Pruning first can only leave fewer stamps. */
  lemma {:induction false} PruneTwice(ts: seq<int>, s1: int, s2: int)
    ensures |Prune(Prune(ts, s1), s2)| <= |Prune(ts, s2)|
  {
    if ts != [] {
      var n := |ts| - 1;
      PruneTwice(ts[..n], s1, s2);
      if ts[n] > s1 {
        PruneAppend(Prune(ts[..n], s1), ts[n], s2);
      } else {
        assert Prune(ts, s1) == Prune(ts[..n], s1);
      }
    }
  }

  lemma {:induction false} PruneShrinks(ts: seq<int>, s1: int, s2: int)
    requires s1 <= s2
    ensures |Prune(ts, s2)| <= |Prune(ts, s1)| <= |ts|
  {
    if ts != [] {
      PruneShrinks(ts[..|ts| - 1], s1, s2);
    }
  }

  // ------------------------------------------------------------------ the window bound

  /** `n` full quotas of `limit`, that is n * limit, kept free of multiplication. */
  function Quotas(limit: nat, n: nat): nat {
    if n == 0 then 0 else limit + Quotas(limit, n - 1)
  }

  lemma {:induction false} QuotasAreProducts(limit: nat, n: nat)
    ensures Quotas(limit, n) == n * limit
  {
    if n > 0 {
      QuotasAreProducts(limit, n - 1);
    }
  }

  lemma {:induction false} QuotasAdd(limit: nat, m: nat, n: nat)
    ensures Quotas(limit, m) + Quotas(limit, n) == Quotas(limit, m + n)
  {
    if m > 0 {
      QuotasAdd(limit, m - 1, n);
    }
  }

  lemma {:induction false} QuotasGrow(limit: nat, m: nat, n: nat)
    requires m <= n
    ensures Quotas(limit, m) <= Quotas(limit, n)
  {
    if m < n {
      QuotasGrow(limit, m, n - 1);
    }
  }

  /** The invariant behind every bound, for one key of one backend and one window (a, b].

      `admits` counts its admissions in the window, `losses` how often the backend forgot the
      key in it (bulk eviction, a restarted Redis), `live` the stamps later than `a` that it
      still holds, `last` its last clock reading.  While the window is open, every admission
      is paid for by a stamp still held or by a loss. */
  ghost predicate Bounded(live: nat, admits: nat, losses: nat, last: int, limit: nat, a: int, b: int) {
    && admits <= Quotas(limit, losses + 1)
    && (last <= b ==> admits <= Quotas(limit, losses) + live && live <= limit)
    && (last <= a ==> live == 0 && admits == 0)
  }

  /** The clock moves and nothing else happens to the key; stamps may be dropped only when
      they have left every window still open at `now`. */
  lemma BoundedTick(live: nat, live': nat, admits: nat, losses: nat, last: int, now: int, limit: nat, a: int, b: int)
    requires Bounded(live, admits, losses, last, limit, a, b) && last <= now && a <= b
    requires now <= b ==> live' == live
    ensures Bounded(live', admits, losses, now, limit, a, b)
  {}

  /** One admission at `now`, by a backend that found fewer than `limit` stamps in its own
      window, which covers the part of (a, b] up to `now` whenever now <= b. */
  lemma BoundedAdmit(live: nat, live': nat, admits: nat, losses: nat, last: int, now: int, limit: nat, a: int, b: int)
    requires Bounded(live, admits, losses, last, limit, a, b) && last <= now && a <= b
    requires now <= b ==> live < limit && live' == live + (if a < now then 1 else 0)
    ensures Bounded(live', admits + (if a < now <= b then 1 else 0), losses, now, limit, a, b)
  {}

  lemma BoundedStart(limit: nat, last: int, a: int, b: int)
    ensures Bounded(0, 0, 0, last, limit, a, b)
  {}

  /** The backend forgets the key at `now`. */
  lemma BoundedLose(live: nat, admits: nat, losses: nat, last: int, now: int, limit: nat, a: int, b: int)
    requires Bounded(live, admits, losses, last, limit, a, b) && last <= now && a <= b
    ensures Bounded(0, admits, losses + (if a < now <= b then 1 else 0), now, limit, a, b)
  {}
}
