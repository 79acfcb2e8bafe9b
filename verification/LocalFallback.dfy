/** The in-process fallback limiter: one Python dict of time-stamp lists per process, in
    insertion order, with bulk eviction of the oldest entries above the key cap. */
module LocalFallback {
  import opened SlidingWindow

  const MAX_KEYS: nat := 10_000
  const EVICT_BATCH: nat := 2_000

  /** The value of the dict: its keys in insertion order, and its entries. */
  datatype Store = Store(order: seq<Key>, windows: map<Key, seq<int>>)

  const EMPTY := Store([], map[])

  ghost predicate WellOrdered(s: Store) {
    && (forall i, j :: 0 <= i < j < |s.order| ==> s.order[i] != s.order[j])
    && (forall k :: k in s.order <==> k in s.windows)
  }

  ghost predicate Legal(s: Store) {
    WellOrdered(s) && |s.order| <= MAX_KEYS
  }

  function Stamps(s: Store, key: Key): seq<int> {
    if key in s.windows then s.windows[key] else []
  }

  /** `windows[key] = ts`: an existing key keeps its place, a new one goes last. */
  function Put(s: Store, key: Key, ts: seq<int>): Store {
    Store(if key in s.windows then s.order else s.order + [key], s.windows[key := ts])
  }

  function Elements(ks: seq<Key>): set<Key> {
    set k | k in ks
  }

  lemma ElementsAppend(ks: seq<Key>, k: Key)
    ensures Elements(ks + [k]) == Elements(ks) + {k}
  {}

  /** The keys one eviction takes: the oldest EVICT_BATCH. */
  function Oldest(order: seq<Key>): set<Key>
    requires |order| > MAX_KEYS
  {
    Elements(order[..EVICT_BATCH])
  }

  function Evict(s: Store): Store {
    if |s.order| > MAX_KEYS then Store(s.order[EVICT_BATCH..], s.windows - Oldest(s.order)) else s
  }

  /** The whole effect and the answer of one local check. */
  function CheckStep(s: Store, key: Key, rule: Rule, now: int): (Store, bool) {
    var timestamps := Prune(Stamps(s, key), now - rule.window);
    if |timestamps| >= rule.limit then (Put(s, key, timestamps), false)
    else (Evict(Put(s, key, timestamps + [now])), true)
  }

  lemma {:induction false} DistinctCount(order: seq<Key>)
    requires forall i, j :: 0 <= i < j < |order| ==> order[i] != order[j]
    ensures |Elements(order)| == |order|
  {
    if order != [] {
      var n := |order| - 1;
      DistinctCount(order[..n]);
      ElementsAppend(order[..n], order[n]);
      assert order == order[..n] + [order[n]];
      assert order[n] !in Elements(order[..n]);
    }
  }

  lemma KeyCount(s: Store)
    requires WellOrdered(s)
    ensures |s.windows| == |s.order|
  {
    DistinctCount(s.order);
    assert s.windows.Keys == Elements(s.order);
  }

  lemma PutOrdered(s: Store, key: Key, ts: seq<int>)
    requires WellOrdered(s)
    ensures WellOrdered(Put(s, key, ts))
  {
    assert forall k :: k in Put(s, key, ts).order <==> k in s.order || k == key;
  }

  lemma EvictOrdered(s: Store)
    requires WellOrdered(s)
    ensures WellOrdered(Evict(s))
  {
    if |s.order| > MAX_KEYS {
      var kept := s.order[EVICT_BATCH..];
      assert forall i :: 0 <= i < |kept| ==> kept[i] == s.order[EVICT_BATCH + i];
      forall k
        ensures k in kept <==> k in s.windows && k !in Oldest(s.order)
      {
        if k in s.order {
          var i :| 0 <= i < |s.order| && s.order[i] == k;
          if i < EVICT_BATCH {
            assert s.order[..EVICT_BATCH][i] == k;
          } else {
            assert kept[i - EVICT_BATCH] == k;
          }
        }
      }
    }
  }

  /** The newest key survives an eviction; the oldest one does not. */
  lemma EvictEnds(s: Store)
    requires WellOrdered(s) && |s.order| > MAX_KEYS
    ensures s.order[|s.order| - 1] in Evict(s).windows
    ensures s.order[0] in s.windows && s.order[0] !in Evict(s).windows
  {
    var first := s.order[0];
    assert s.order[..EVICT_BATCH][0] == first;
  }

  /** The dict one middleware instance owns. */
  class FallbackMap {
    var order: seq<Key>
    var windows: map<Key, seq<int>>

    function View(): Store
      reads this
    {
      Store(order, windows)
    }

    constructor ()
      ensures View() == EMPTY
    {
      order, windows := [], map[];
    }

    method Check(key: Key, rule: Rule, now: int) returns (allowed: bool)
      requires WellOrdered(View())
      modifies this
      ensures (View(), allowed) == CheckStep(old(View()), key, rule, now)
      ensures WellOrdered(View())
    {
      hide WellOrdered, Evict, Prune;
      var was := if key in windows then windows[key] else [];
      var timestamps := Prune(was, now - rule.window);
      PutOrdered(View(), key, timestamps);
      PutOrdered(View(), key, timestamps + [now]);
      if key !in windows {
        order := order + [key];
      }
      if |timestamps| >= rule.limit {
        windows := windows[key := timestamps];
        return false;
      }
      windows := windows[key := timestamps + [now]];
      KeyCount(View());
      EvictOldest();
      return true;
    }

    /** `if len(windows) > cap`: deletes the first EVICT_BATCH keys, in insertion order. */
    method EvictOldest()
      requires WellOrdered(View())
      modifies this
      ensures View() == Evict(old(View())) && WellOrdered(View())
    {
      hide WellOrdered, Elements, Evict, Oldest;
      KeyCount(View());
      EvictOrdered(View());
      EvictIs(View());
      if |windows| > MAX_KEYS {
        var toDelete := order[..EVICT_BATCH];
        ghost var all, full := order, windows;
        DeleteNone(full, toDelete);
        var i := 0;
        while i < EVICT_BATCH
          invariant 0 <= i <= EVICT_BATCH == |toDelete| <= |all|
          invariant order == all[i..]
          invariant windows == full - Elements(toDelete[..i])
        {
          DeleteNext(all, full, toDelete, i);
          windows := windows - {toDelete[i]};
          order := order[1..];
          i := i + 1;
        }
        assert toDelete[..i] == toDelete;
      }
    }
  }

  lemma EvictIs(s: Store)
    ensures Evict(s) == if |s.order| <= MAX_KEYS then s
                        else Store(s.order[EVICT_BATCH..], s.windows - Elements(s.order[..EVICT_BATCH]))
  {}

  lemma DeleteNone(full: map<Key, seq<int>>, toDelete: seq<Key>)
    ensures full - Elements(toDelete[..0]) == full
  {}

  lemma DeleteNext(all: seq<Key>, full: map<Key, seq<int>>, toDelete: seq<Key>, i: nat)
    requires i < |toDelete| <= |all|
    ensures all[i..][1..] == all[i + 1..]
    ensures full - Elements(toDelete[..i]) - {toDelete[i]} == full - Elements(toDelete[..i + 1])
  {
    ElementsAppend(toDelete[..i], toDelete[i]);
    assert toDelete[..i + 1] == toDelete[..i] + [toDelete[i]];
  }

  // ------------------------------------------------------------------ one check

  lemma CheckLegal(s: Store, key: Key, rule: Rule, now: int)
    requires Legal(s) && rule.limit >= 1
    ensures Legal(CheckStep(s, key, rule, now).0)
  {
    hide WellOrdered, Prune;
    var ts, start := Stamps(s, key), now - rule.window;
    PruneShrinks(ts, start, start);
    PutOrdered(s, key, Prune(ts, start));
    PutOrdered(s, key, Prune(ts, start) + [now]);
    EvictOrdered(Put(s, key, Prune(ts, start) + [now]));
  }

  /** The answer of a check and what becomes of the charged key's stamps: in particular the
      key just charged is never evicted by its own charge. */
  lemma CheckSelf(s: Store, key: Key, rule: Rule, now: int)
    requires Legal(s) && rule.limit >= 1
    ensures var (s', ok) := CheckStep(s, key, rule, now);
            var ts := Prune(Stamps(s, key), now - rule.window);
            && ok == (|ts| < rule.limit)
            && key in s'.windows
            && s'.windows[key] == if ok then ts + [now] else ts
  {
    hide WellOrdered, Prune;
    var ts := Prune(Stamps(s, key), now - rule.window);
    var full := Put(s, key, ts + [now]);
    PutOrdered(s, key, ts + [now]);
    if |full.order| > MAX_KEYS {
      assert full.order[|full.order| - 1] == key;
      EvictEnds(full);
    }
  }

  /** Every other key is either evicted or keeps its history. */
  lemma CheckOther(s: Store, key: Key, other: Key, rule: Rule, now: int)
    requires other != key
    ensures var s' := CheckStep(s, other, rule, now).0;
            && Stamps(s', key) == (if Loses(s, s', key) then [] else Stamps(s, key))
            && (key in s'.windows ==> key in s.windows)
  {
    hide WellOrdered, Prune;
  }

  predicate Loses(s: Store, s': Store, key: Key) {
    key in s.windows && key !in s'.windows
  }

  /** Eviction fires exactly when an admitted new key finds the dict full, and then it takes
      exactly the oldest batch; otherwise no key is lost and insertion order is kept. */
  lemma EvictionFires(s: Store, key: Key, rule: Rule, now: int)
    requires Legal(s) && rule.limit >= 1
    ensures var (s', ok) := CheckStep(s, key, rule, now);
            var fires := key !in s.windows && |s.order| == MAX_KEYS;
            && (fires <==> exists k :: Loses(s, s', k))
            && (key !in s.windows ==> ok)
            && s'.order == (if fires then s.order[EVICT_BATCH..] else s.order)
                           + (if key in s.windows then [] else [key])
  {
    hide WellOrdered, Prune;
    var ts, start := Stamps(s, key), now - rule.window;
    PruneShrinks(ts, start, start);
    var full := Put(s, key, Prune(ts, start) + [now]);
    PutOrdered(s, key, Prune(ts, start) + [now]);
    if |full.order| > MAX_KEYS {
      EvictEnds(full);
      assert key !in s.windows && ts == [] && CheckStep(s, key, rule, now) == (Evict(full), true);
      assert full.order[EVICT_BATCH..] == s.order[EVICT_BATCH..] + [key];
      assert full.order[0] == s.order[0];
      assert Loses(s, Evict(full), s.order[0]) by { LegalHolds(s, 0); }
    }
  }

  lemma LegalHolds(s: Store, i: nat)
    requires WellOrdered(s) && i < |s.order|
    ensures s.order[i] in s.windows
  {}

  // ------------------------------------------------------------------ runs

  /** The checks `calls` in turn, from `s`: the last state and every answer. */
  function Exec(rules: Rules, s: Store, calls: seq<Call>): (Store, seq<bool>)
    decreases |calls|
  {
    if calls == [] then (s, [])
    else
      var (s', ok) := CheckStep(s, calls[0].key, rules(calls[0].key), calls[0].now);
      var (last, answers) := Exec(rules, s', calls[1..]);
      (last, [ok] + answers)
  }

  lemma {:induction false} RunKeepsCapacity(rules: Rules, s: Store, calls: seq<Call>)
    requires Legal(s) && Positive(rules)
    ensures Legal(Exec(rules, s, calls).0)
    ensures |Exec(rules, s, calls).0.windows| <= MAX_KEYS
    decreases |calls|
  {
    if calls == [] {
      KeyCount(s);
    } else {
      CheckLegal(s, calls[0].key, rules(calls[0].key), calls[0].now);
      RunKeepsCapacity(rules, CheckStep(s, calls[0].key, rules(calls[0].key), calls[0].now).0, calls[1..]);
    }
  }

  // ------------------------------------------------------------------ the bound under eviction

  /** Stamps of `key` later than `a`. */
  function Live(s: Store, key: Key, a: int): nat {
    |Prune(Stamps(s, key), a)|
  }

  lemma BoundedOwn(s: Store, key: Key, rule: Rule, now: int, admits: nat, losses: nat, last: int, a: int)
    requires Legal(s) && rule.limit >= 1 && last <= now
    requires Bounded(Live(s, key, a), admits, losses, last, rule.limit, a, a + rule.window)
    ensures var (s', ok) := CheckStep(s, key, rule, now);
            Bounded(Live(s', key, a), admits + (if ok && a < now <= a + rule.window then 1 else 0), losses,
                    now, rule.limit, a, a + rule.window)
  {
    hide CheckStep, Prune, Bounded, WellOrdered;
    CheckSelf(s, key, rule, now);
    var (s', ok) := CheckStep(s, key, rule, now);
    var ts, start, b := Stamps(s, key), now - rule.window, a + rule.window;
    if now <= b {
      PrunePrune(ts, start, a);
      PruneShrinks(ts, start, a);
    }
    if ok {
      PruneAppend(Prune(ts, start), now, a);
      BoundedAdmit(Live(s, key, a), Live(s', key, a), admits, losses, last, now, rule.limit, a, b);
    } else {
      BoundedTick(Live(s, key, a), Live(s', key, a), admits, losses, last, now, rule.limit, a, b);
    }
  }

  lemma BoundedOther(s: Store, s': Store, key: Key, rule: Rule, now: int, admits: nat, losses: nat, last: int, a: int)
    requires rule.limit >= 1 && last <= now
    requires if Loses(s, s', key) then Stamps(s', key) == [] else Stamps(s', key) == Stamps(s, key)
    requires Bounded(Live(s, key, a), admits, losses, last, rule.limit, a, a + rule.window)
    ensures Bounded(Live(s', key, a), admits,
                    losses + (if Loses(s, s', key) && a < now <= a + rule.window then 1 else 0),
                    now, rule.limit, a, a + rule.window)
  {
    if Loses(s, s', key) {
      BoundedLose(Live(s, key, a), admits, losses, last, now, rule.limit, a, a + rule.window);
    } else {
      BoundedTick(Live(s, key, a), Live(s', key, a), admits, losses, last, now, rule.limit, a, a + rule.window);
    }
  }

  /** Admissions of `key` in (a, b] along a run. */
  function Admits(rules: Rules, s: Store, calls: seq<Call>, key: Key, a: int, b: int): nat
    decreases |calls|
  {
    if calls == [] then 0
    else
      var (s', ok) := CheckStep(s, calls[0].key, rules(calls[0].key), calls[0].now);
      (if ok && calls[0].key == key && a < calls[0].now <= b then 1 else 0)
      + Admits(rules, s', calls[1..], key, a, b)
  }

  /** Evictions of `key` in (a, b] along a run. */
  function Evictions(rules: Rules, s: Store, calls: seq<Call>, key: Key, a: int, b: int): nat
    decreases |calls|
  {
    if calls == [] then 0
    else
      var s' := CheckStep(s, calls[0].key, rules(calls[0].key), calls[0].now).0;
      (if Loses(s, s', key) && a < calls[0].now <= b then 1 else 0)
      + Evictions(rules, s', calls[1..], key, a, b)
  }

  lemma BoundedStep(rules: Rules, s: Store, c: Call, key: Key, admits: nat, losses: nat, last: int, a: int)
    requires Legal(s) && Positive(rules) && last <= c.now
    requires Bounded(Live(s, key, a), admits, losses, last, rules(key).limit, a, a + rules(key).window)
    ensures var (s', ok) := CheckStep(s, c.key, rules(c.key), c.now);
            var b := a + rules(key).window;
            && Legal(s')
            && Bounded(Live(s', key, a),
                       admits + (if ok && c.key == key && a < c.now <= b then 1 else 0),
                       losses + (if Loses(s, s', key) && a < c.now <= b then 1 else 0),
                       c.now, rules(key).limit, a, b)
  {
    hide CheckStep, Prune, WellOrdered, Bounded;
    CheckLegal(s, c.key, rules(c.key), c.now);
    var (s', ok) := CheckStep(s, c.key, rules(c.key), c.now);
    if c.key == key {
      CheckSelf(s, key, rules(key), c.now);
      BoundedOwn(s, key, rules(key), c.now, admits, losses, last, a);
    } else {
      CheckOther(s, key, c.key, rules(c.key), c.now);
      BoundedOther(s, s', key, rules(key), c.now, admits, losses, last, a);
    }
  }

  lemma {:induction false} BoundedRun(rules: Rules, s: Store, calls: seq<Call>, key: Key, admits: nat, losses: nat,
                                      last: int, a: int)
    requires Legal(s) && Positive(rules) && Monotone(calls, last)
    requires Bounded(Live(s, key, a), admits, losses, last, rules(key).limit, a, a + rules(key).window)
    ensures var b := a + rules(key).window;
            admits + Admits(rules, s, calls, key, a, b)
            <= Quotas(rules(key).limit, losses + Evictions(rules, s, calls, key, a, b) + 1)
    decreases |calls|
  {
    hide CheckStep, Prune, WellOrdered;
    if calls != [] {
      var c, b := calls[0], a + rules(key).window;
      BoundedStep(rules, s, c, key, admits, losses, last, a);
      var (s', ok) := CheckStep(s, c.key, rules(c.key), c.now);
      var admits' := admits + (if ok && c.key == key && a < c.now <= b then 1 else 0);
      var losses' := losses + (if Loses(s, s', key) && a < c.now <= b then 1 else 0);
      BoundedRun(rules, s', calls[1..], key, admits', losses', c.now, a);
    }
  }

  /** In every window of length W a run admits a key at most (1 + e) * L times, where e is
      how often that key was evicted inside the window. */
  lemma WindowBound(rules: Rules, calls: seq<Call>, start: int, key: Key, a: int)
    requires Positive(rules) && Monotone(calls, start)
    ensures var b := a + rules(key).window;
            Admits(rules, EMPTY, calls, key, a, b)
            <= (1 + Evictions(rules, EMPTY, calls, key, a, b)) * rules(key).limit
  {
    var b := a + rules(key).window;
    BoundedRun(rules, EMPTY, calls, key, 0, 0, start, a);
    QuotasAreProducts(rules(key).limit, Evictions(rules, EMPTY, calls, key, a, b) + 1);
  }

  // ------------------------------------------------------------------ rejections

  lemma HeldStep(s: Store, key: Key, c: Call, rule: Rule, x: int)
    requires Legal(s) && rule.limit >= 1
    ensures var (s', ok) := CheckStep(s, c.key, rule, c.now);
            Live(s', key, x) <= Live(s, key, x) + (if ok && c.key == key && x < c.now then 1 else 0)
  {
    hide CheckStep, Prune, WellOrdered;
    var ts, start := Stamps(s, key), c.now - rule.window;
    if c.key == key {
      CheckSelf(s, key, rule, c.now);
      PruneTwice(ts, start, x);
      PruneAppend(Prune(ts, start), c.now, x);
    } else {
      CheckOther(s, key, c.key, rule, c.now);
      PruneNothing(x);
    }
  }

  /** Every stamp a run ends up holding is one it admitted, or one it started with. */
  lemma {:induction false} HeldWereAdmitted(rules: Rules, s: Store, calls: seq<Call>, last: int, key: Key, x: int,
                                            b: int)
    requires Legal(s) && Positive(rules) && Monotone(calls, last)
    requires |calls| > 0 ==> calls[|calls| - 1].now <= b
    ensures Legal(Exec(rules, s, calls).0)
    ensures Live(Exec(rules, s, calls).0, key, x) <= Live(s, key, x) + Admits(rules, s, calls, key, x, b)
    decreases |calls|
  {
    hide CheckStep;
    if calls != [] {
      var c := calls[0];
      var s' := CheckStep(s, c.key, rules(c.key), c.now).0;
      CheckLegal(s, c.key, rules(c.key), c.now);
      HeldStep(s, key, c, rules(c.key), x);
      assert c.now <= calls[|calls| - 1].now <= b;
      HeldWereAdmitted(rules, s', calls[1..], c.now, key, x, b);
    }
  }

  lemma EmptyIsLegal()
    ensures Legal(EMPTY)
  {}

  /** A rejection is always justified: at least L admissions of that key in the last W. */
  lemma RejectionJustified(rules: Rules, calls: seq<Call>, start: int, key: Key, now: int)
    requires Positive(rules) && Monotone(calls, start)
    requires |calls| > 0 ==> calls[|calls| - 1].now <= now
    requires !CheckStep(Exec(rules, EMPTY, calls).0, key, rules(key), now).1
    ensures Admits(rules, EMPTY, calls, key, now - rules(key).window, now) >= rules(key).limit
  {
    hide CheckStep, Exec, Admits, Prune, WellOrdered;
    var s := Exec(rules, EMPTY, calls).0;
    assert !CheckStep(s, key, rules(key), now).1;
    assert Legal(EMPTY) by { EmptyIsLegal(); }
    HeldWereAdmitted(rules, EMPTY, calls, start, key, now - rules(key).window, now);
    CheckSelf(s, key, rules(key), now);
    PruneNothing(now - rules(key).window);
  }

  lemma {:induction false} NothingRecent(rules: Rules, s: Store, calls: seq<Call>, key: Key, x: int, b: int)
    requires forall i :: 0 <= i < |calls| ==> calls[i].now <= x
    ensures Admits(rules, s, calls, key, x, b) == 0
    decreases |calls|
  {
    hide CheckStep;
    if calls != [] {
      NothingRecent(rules, CheckStep(s, calls[0].key, rules(calls[0].key), calls[0].now).0, calls[1..], key, x, b);
    }
  }

  /** Retry-After is sufficient: after a run up to `t0` (its last call rejected, say) and any
      further calls that admit nothing on the key, a call at t0 + W or later passes. */
  lemma RetryPasses(rules: Rules, calls: seq<Call>, start: int, key: Key, t0: int, between: seq<Call>, t1: int)
    requires Positive(rules) && Monotone(calls, start) && Monotone(between, t0)
    requires forall i :: 0 <= i < |calls| ==> calls[i].now <= t0
    requires forall i :: 0 <= i < |between| ==> between[i].now <= t1
    requires t1 >= t0 + rules(key).window
    requires var s := Exec(rules, EMPTY, calls).0;
             Admits(rules, s, between, key, t1 - rules(key).window, t1) == 0
    ensures var s := Exec(rules, EMPTY, calls).0;
            CheckStep(Exec(rules, s, between).0, key, rules(key), t1).1
  {
    hide CheckStep, Exec, Admits, Prune, WellOrdered;
    var x, s := t1 - rules(key).window, Exec(rules, EMPTY, calls).0;
    EmptyIsLegal();
    PruneNothing(x);
    HeldWereAdmitted(rules, EMPTY, calls, start, key, x, t1);
    NothingRecent(rules, EMPTY, calls, key, x, t1);
    HeldWereAdmitted(rules, s, between, t0, key, x, t1);
    CheckSelf(Exec(rules, s, between).0, key, rules(key), t1);
  }

  /** Two stores no later check can tell apart. */
  ghost predicate Alike(rules: Rules, s: Store, t: Store, clock: int) {
    && s.order == t.order
    && forall k :: Prune(Stamps(s, k), clock - rules(k).window) == Prune(Stamps(t, k), clock - rules(k).window)
  }

  lemma AlikeLater(rules: Rules, s: Store, t: Store, clock: int, now: int)
    requires Alike(rules, s, t, clock) && clock <= now
    ensures Alike(rules, s, t, now)
  {
    forall k
      ensures Prune(Stamps(s, k), now - rules(k).window) == Prune(Stamps(t, k), now - rules(k).window)
    {
      PrunePrune(Stamps(s, k), clock - rules(k).window, now - rules(k).window);
      PrunePrune(Stamps(t, k), clock - rules(k).window, now - rules(k).window);
    }
  }

  lemma SameKeys(s: Store, t: Store)
    requires Legal(s) && Legal(t) && s.order == t.order
    ensures s.windows.Keys == t.windows.Keys
  {
    assert forall k :: k in s.windows <==> k in s.order;
  }

  lemma AlikeCheck(rules: Rules, s: Store, t: Store, key: Key, now: int)
    requires Legal(s) && Legal(t) && Positive(rules) && Alike(rules, s, t, now)
    ensures var (s', okS) := CheckStep(s, key, rules(key), now);
            var (t', okT) := CheckStep(t, key, rules(key), now);
            okS == okT && Alike(rules, s', t', now) && Legal(s') && Legal(t')
  {
    hide CheckStep, Prune, WellOrdered;
    var (s', okS) := CheckStep(s, key, rules(key), now);
    var (t', okT) := CheckStep(t, key, rules(key), now);
    CheckSelf(s, key, rules(key), now);
    CheckSelf(t, key, rules(key), now);
    assert okS == okT by {
      assert Prune(Stamps(s, key), now - rules(key).window) == Prune(Stamps(t, key), now - rules(key).window);
    }
    assert Legal(s') && Legal(t') && s'.order == t'.order by {
      CheckLegal(s, key, rules(key), now);
      CheckLegal(t, key, rules(key), now);
      EvictionFires(s, key, rules(key), now);
      EvictionFires(t, key, rules(key), now);
      SameKeys(s, t);
    }
    forall k
      ensures Prune(Stamps(s', k), now - rules(k).window) == Prune(Stamps(t', k), now - rules(k).window)
    {
      assert Prune(Stamps(s, k), now - rules(k).window) == Prune(Stamps(t, k), now - rules(k).window);
      if k != key {
        CheckOther(s, k, key, rules(key), now);
        CheckOther(t, k, key, rules(key), now);
        SameKeys(s, t);
        SameKeys(s', t');
      }
    }
  }

  lemma {:induction false} AlikeRun(rules: Rules, s: Store, t: Store, calls: seq<Call>, clock: int)
    requires Legal(s) && Legal(t) && Positive(rules) && Alike(rules, s, t, clock) && Monotone(calls, clock)
    ensures Exec(rules, s, calls).1 == Exec(rules, t, calls).1
    decreases |calls|
  {
    hide CheckStep;
    if calls != [] {
      var c := calls[0];
      AlikeLater(rules, s, t, clock, c.now);
      AlikeCheck(rules, s, t, c.key, c.now);
      AlikeRun(rules, CheckStep(s, c.key, rules(c.key), c.now).0, CheckStep(t, c.key, rules(c.key), c.now).0,
               calls[1..], c.now);
    }
  }

  /** Rejected calls never consume capacity: had the rejected call not been made, every
      later call on any key would have received the same answer. */
  lemma RejectedCallsAreFree(rules: Rules, s: Store, c: Call, later: seq<Call>)
    requires Legal(s) && Positive(rules) && Monotone(later, c.now)
    requires !CheckStep(s, c.key, rules(c.key), c.now).1
    ensures Exec(rules, s, [c] + later).1 == [false] + Exec(rules, s, later).1
  {
    RejectionIsAlike(rules, s, c);
    hide CheckStep;
    AlikeRun(rules, CheckStep(s, c.key, rules(c.key), c.now).0, s, later, c.now);
    assert ([c] + later)[1..] == later;
  }

  lemma RejectionIsAlike(rules: Rules, s: Store, c: Call)
    requires Legal(s) && Positive(rules)
    requires !CheckStep(s, c.key, rules(c.key), c.now).1
    ensures var s' := CheckStep(s, c.key, rules(c.key), c.now).0;
            Legal(s') && Alike(rules, s', s, c.now)
  {
    hide CheckStep, Prune, WellOrdered;
    var s' := CheckStep(s, c.key, rules(c.key), c.now).0;
    CheckSelf(s, c.key, rules(c.key), c.now);
    CheckLegal(s, c.key, rules(c.key), c.now);
    EvictionFires(s, c.key, rules(c.key), c.now);
    forall k
      ensures Prune(Stamps(s', k), c.now - rules(k).window) == Prune(Stamps(s, k), c.now - rules(k).window)
    {
      if k == c.key {
        PrunePrune(Stamps(s, k), c.now - rules(k).window, c.now - rules(k).window);
      } else {
        CheckOther(s, k, c.key, rules(c.key), c.now);
      }
    }
  }
}
