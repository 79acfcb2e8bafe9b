/** `RateLimitMiddleware.dispatch`: one request walks its chain of tiers, on Redis when it can,
    and all over again on the process's own fallback map when a Redis call fails. */
module Dispatch {
  import opened Options
  import opened SlidingWindow
  import opened LocalFallback
  import opened RedisWindow
  import opened Tiers
  import Paths

  datatype Response = Forwarded | TooMany(retryAfter: int)

  /** What the world supplies to one check: the clock, a member name, and how Redis behaves. */
  datatype Reading = Reading(now: int, member: string, outcome: Outcome)

  /** How a walk on Redis ends. */
  datatype Walked = Decided(response: Response) | RedisError

  // ------------------------------------------------------------------ the walks, as functions

  function LocalWalk(s: Store, chain: seq<Charge>, readings: seq<Reading>): (Store, Response)
    requires |readings| >= |chain|
    decreases |chain|
  {
    if chain == [] then (s, Forwarded)
    else
      var (s', ok) := CheckStep(s, chain[0].key, chain[0].rule, readings[0].now);
      if !ok then (s', TooMany(chain[0].retryAfter)) else LocalWalk(s', chain[1..], readings[1..])
  }

  function RedisWalk(db: Db, chain: seq<Charge>, readings: seq<Reading>): (Db, Walked)
    requires |readings| >= |chain|
    decreases |chain|
  {
    if chain == [] then (db, Decided(Forwarded))
    else
      var (db', ok) := ScriptStep(db, chain[0].key, chain[0].rule, readings[0].now, readings[0].member, true);
      match readings[0].outcome
      case NotRun => (db, RedisError)
      case ReplyLost => (db', RedisError)
      case Answered => if !ok then (db', Decided(TooMany(chain[0].retryAfter)))
          else RedisWalk(db', chain[1..], readings[1..])
  }

  /** Where a dispatch leaves both backends, and its response.  `db` is None while Redis has
      not been connected. */
  function DispatchStep(s: Store, db: Option<Db>, settings: Settings, r: Request,
                        onRedis: seq<Reading>, local: seq<Reading>): (Store, Option<Db>, Response)
    requires |onRedis| >= 4 && |local| >= 4
  {
    AtMostFourWindows(settings, r);
    var chain := Chain(settings, r);
    if r.path in BYPASS_PATHS then (s, db, Forwarded)
    else if db.None? then
      var (s', response) := LocalWalk(s, chain, local);
      (s', None, response)
    else
      var (db', walked) := RedisWalk(db.value, chain, onRedis);
      match walked
      case Decided(response) => (s, Some(db'), response)
      case RedisError =>
        var (s', response) := LocalWalk(s, chain, local);
        (s', Some(db'), response)
  }

  // ------------------------------------------------------------------ the middleware

  class RateLimitMiddleware {
    const fallback: FallbackMap
    var redisWarned: bool

    constructor ()
      ensures fresh(fallback) && fallback.View() == EMPTY && !redisWarned
    {
      fallback := new FallbackMap();
      redisWarned := false;
    }

    /** `warned` says that the request logged that Redis is not ready. */
    method Dispatch(redis: Server?, settings: Settings, r: Request, onRedis: seq<Reading>, local: seq<Reading>)
      returns (response: Response, warned: bool)
      requires Legal(fallback.View()) && |onRedis| >= 4 && |local| >= 4
      modifies this`redisWarned, fallback, redis
      ensures Legal(fallback.View())
      ensures var before := if redis == null then None else Some(old(redis.db));
              var after := if redis == null then None else Some(redis.db);
              (fallback.View(), after, response)
              == DispatchStep(old(fallback.View()), before, settings, r, onRedis, local)
      ensures r.path in BYPASS_PATHS ==> redisWarned == old(redisWarned) && !warned
      ensures r.path !in BYPASS_PATHS ==>
                redisWarned == (redis == null) && warned == (redis == null && !old(redisWarned))
    {
      hide Legal, LocalWalk, RedisWalk, Chain, BYPASS_PATHS;
      warned := false;
      if r.path in BYPASS_PATHS {
        return Forwarded, false;
      }
      AtMostFourWindows(settings, r);
      var chain := Chain(settings, r);
      ChainIsPositive(settings, r);
      if redis == null {
        if !redisWarned {
          warned := true;
          redisWarned := true;
        }
        response := EnforceLocally(chain, local);
        return;
      }
      redisWarned := false;
      var walked := EnforceOnRedis(redis, chain, onRedis);
      match walked
      case Decided(answer) => response := answer;
      case RedisError => response := EnforceLocally(chain, local);
    }

    method EnforceLocally(chain: seq<Charge>, readings: seq<Reading>) returns (response: Response)
      requires Legal(fallback.View()) && |readings| >= |chain| && forall c :: c in chain ==> c.rule.limit >= 1
      modifies fallback
      ensures (fallback.View(), response) == LocalWalk(old(fallback.View()), chain, readings)
      ensures Legal(fallback.View())
    {
      hide Legal, CheckStep;
      for i := 0 to |chain|
        invariant Legal(fallback.View())
        invariant LocalWalk(fallback.View(), chain[i..], readings[i..])
            == LocalWalk(old(fallback.View()), chain, readings)
      {
        assert chain[i] in chain;
        assert chain[i..][1..] == chain[i + 1..] && readings[i..][1..] == readings[i + 1..];
        LegalIsOrdered(fallback.View());
        CheckLegal(fallback.View(), chain[i].key, chain[i].rule, readings[i].now);
        var ok := fallback.Check(chain[i].key, chain[i].rule, readings[i].now);
        if !ok {
          return TooMany(chain[i].retryAfter);
        }
      }
      return Forwarded;
    }

    method EnforceOnRedis(redis: Server, chain: seq<Charge>, readings: seq<Reading>) returns (walked: Walked)
      requires |readings| >= |chain|
      modifies redis
      ensures (redis.db, walked) == RedisWalk(old(redis.db), chain, readings)
    {
      hide ScriptStep;
      for i := 0 to |chain|
        invariant RedisWalk(redis.db, chain[i..], readings[i..]) == RedisWalk(old(redis.db), chain, readings)
      {
        assert chain[i..][1..] == chain[i + 1..] && readings[i..][1..] == readings[i + 1..];
        if readings[i].outcome == NotRun {
          return RedisError;
        }
        var ok := redis.Eval(chain[i].key, chain[i].rule, readings[i].now, readings[i].member);
        if readings[i].outcome == ReplyLost {
          return RedisError;
        }
        if !ok {
          return Decided(TooMany(chain[i].retryAfter));
        }
      }
      return Decided(Forwarded);
    }
  }

  lemma LegalIsOrdered(s: Store)
    requires Legal(s)
    ensures WellOrdered(s)
  {}

  lemma ChainIsPositive(settings: Settings, r: Request)
    ensures forall c :: c in Chain(settings, r) ==> c.rule.limit >= 1
  {
    hide Chain, RulesOf;
    forall c | c in Chain(settings, r) ensures c.rule.limit >= 1 {
      var i :| 0 <= i < |Chain(settings, r)| && Chain(settings, r)[i] == c;
      ChainFollowsRules(settings, r, i);
    }
  }

  // ------------------------------------------------------------------ what a walk means

  /** The store the `i`-th tier of a walk finds. */
  function StoreBefore(s: Store, chain: seq<Charge>, readings: seq<Reading>, i: nat): Store
    requires i <= |chain| <= |readings|
    decreases i
  {
    if i == 0 then s
    else
      CheckStep(StoreBefore(s, chain, readings, i - 1), chain[i - 1].key, chain[i - 1].rule, readings[i - 1].now).0
  }

  predicate AdmitsNow(s: Store, c: Charge, reading: Reading) {
    CheckStep(s, c.key, c.rule, reading.now).1
  }

  lemma {:induction false} StoreBeforeTail(s: Store, chain: seq<Charge>, readings: seq<Reading>, i: nat)
    requires 1 <= i <= |chain| <= |readings|
    ensures StoreBefore(s, chain, readings, i)
            == StoreBefore(CheckStep(s, chain[0].key, chain[0].rule, readings[0].now).0, chain[1..], readings[1..],
                           i - 1)
  {
    hide CheckStep;
    if i > 1 {
      StoreBeforeTail(s, chain, readings, i - 1);
    }
  }

  /** A walk is decided by the first tier that rejects at its turn, which supplies Retry-After;
      the tiers after it are never charged. */
  lemma {:induction false} LocalWalkIs(s: Store, chain: seq<Charge>, readings: seq<Reading>) returns (n: nat)
    requires |readings| >= |chain|
    ensures n <= |chain|
    ensures forall i :: 0 <= i < n ==> AdmitsNow(StoreBefore(s, chain, readings, i), chain[i], readings[i])
    ensures n < |chain| ==> !AdmitsNow(StoreBefore(s, chain, readings, n), chain[n], readings[n])
    ensures LocalWalk(s, chain, readings)
            == if n == |chain| then (StoreBefore(s, chain, readings, n), Forwarded)
               else (StoreBefore(s, chain, readings, n + 1), TooMany(chain[n].retryAfter))
    decreases |chain|
  {
    hide CheckStep;
    n := 0;
    if chain != [] {
      var (s', ok) := CheckStep(s, chain[0].key, chain[0].rule, readings[0].now);
      if ok {
        var m := LocalWalkIs(s', chain[1..], readings[1..]);
        n := m + 1;
        StoreBeforeTail(s, chain, readings, n);
        if n < |chain| { StoreBeforeTail(s, chain, readings, n + 1); }
        forall i | 0 <= i < n ensures AdmitsNow(StoreBefore(s, chain, readings, i), chain[i], readings[i]) {
          if i > 0 {
            StoreBeforeTail(s, chain, readings, i);
            assert AdmitsNow(StoreBefore(s', chain[1..], readings[1..], i - 1), chain[1..][i - 1],
                             readings[1..][i - 1]);
          }
        }
      }
    }
  }

  ghost predicate DistinctKeys(chain: seq<Charge>) {
    forall i, j :: 0 <= i < j < |chain| ==> chain[i].key != chain[j].key
  }

  /** Tiers charged before do not touch a key, unless they evicted it. */
  lemma {:induction false} UntouchedBefore(s: Store, chain: seq<Charge>, readings: seq<Reading>, i: nat, k: Key)
    requires i <= |chain| <= |readings|
    requires forall j :: 0 <= j < i ==> chain[j].key != k
    ensures var t := StoreBefore(s, chain, readings, i);
            && Stamps(t, k) == (if Loses(s, t, k) then [] else Stamps(s, k))
            && (k in t.windows ==> k in s.windows)
  {
    hide CheckStep;
    if i > 0 {
      UntouchedBefore(s, chain, readings, i - 1, k);
      CheckOther(StoreBefore(s, chain, readings, i - 1), k, chain[i - 1].key, chain[i - 1].rule, readings[i - 1].now);
    }
  }

  lemma {:induction false} LegalBefore(s: Store, chain: seq<Charge>, readings: seq<Reading>, i: nat)
    requires i <= |chain| <= |readings| && Legal(s) && forall c :: c in chain ==> c.rule.limit >= 1
    ensures Legal(StoreBefore(s, chain, readings, i))
  {
    hide CheckStep, Legal;
    if i > 0 {
      LegalBefore(s, chain, readings, i - 1);
      assert chain[i - 1] in chain;
      CheckLegal(StoreBefore(s, chain, readings, i - 1), chain[i - 1].key, chain[i - 1].rule, readings[i - 1].now);
    }
  }

  /** At its turn a tier answers as it would have before the request arrived, unless an
      earlier tier of the same request evicted its key: then it admits. */
  lemma TurnIsPrior(s: Store, chain: seq<Charge>, readings: seq<Reading>, i: nat)
    requires i < |chain| <= |readings| && Legal(s) && DistinctKeys(chain)
    requires forall c :: c in chain ==> c.rule.limit >= 1
    ensures AdmitsNow(StoreBefore(s, chain, readings, i), chain[i], readings[i])
            <==> AdmitsNow(s, chain[i], readings[i]) || Loses(s, StoreBefore(s, chain, readings, i), chain[i].key)
  {
    hide CheckStep, Legal, Prune;
    var t, c := StoreBefore(s, chain, readings, i), chain[i];
    assert c in chain;
    UntouchedBefore(s, chain, readings, i, c.key);
    LegalBefore(s, chain, readings, i);
    CheckSelf(s, c.key, c.rule, readings[i].now);
    CheckSelf(t, c.key, c.rule, readings[i].now);
    PruneNothing(readings[i].now - c.rule.window);
  }

  // When that happens, read off the store the request meets.

  /** How many of the first `i` keys of the chain the store does not hold. */
  function NewBefore(s: Store, chain: seq<Charge>, i: nat): nat
    requires i <= |chain|
  {
    if i == 0 then 0 else NewBefore(s, chain, i - 1) + (if chain[i - 1].key in s.windows then 0 else 1)
  }

  /** The key of tier `j` is the one that takes the store above the cap. */
  predicate FillsUp(s: Store, chain: seq<Charge>, j: nat)
    requires j < |chain|
  {
    chain[j].key !in s.windows && |s.order| + NewBefore(s, chain, j) == MAX_KEYS
  }

  /** The key is among those an eviction would take. */
  predicate AmongOldest(s: Store, k: Key) {
    exists p :: 0 <= p < EVICT_BATCH && p < |s.order| && s.order[p] == k
  }

  /** An earlier tier of this chain fills the store up, and this tier's key is among the oldest. */
  predicate EvictedBefore(s: Store, chain: seq<Charge>, i: nat)
    requires i < |chain|
  {
    AmongOldest(s, chain[i].key) && exists j :: 0 <= j < i && FillsUp(s, chain, j)
  }

  predicate ChargedBefore(chain: seq<Charge>, i: nat, k: Key)
    requires i <= |chain|
  {
    exists j :: 0 <= j < i && chain[j].key == k
  }

  /** A chain the dispatcher walks. */
  ghost predicate Walkable(s: Store, chain: seq<Charge>) {
    Legal(s) && DistinctKeys(chain) && |chain| <= 4 && forall c :: c in chain ==> c.rule.limit >= 1
  }

  lemma {:induction false} NeverFull(s: Store, chain: seq<Charge>, i: nat)
    requires i <= |chain| && |s.order| <= MAX_KEYS && forall j :: 0 <= j < i ==> !FillsUp(s, chain, j)
    ensures |s.order| + NewBefore(s, chain, i) <= MAX_KEYS
  {
    if i > 0 {
      NeverFull(s, chain, i - 1);
      assert !FillsUp(s, chain, i - 1);
    }
  }

  lemma {:induction false} NewBeforeIsSmall(s: Store, chain: seq<Charge>, i: nat)
    requires i <= |chain|
    ensures NewBefore(s, chain, i) <= i
  {
    if i > 0 {
      NewBeforeIsSmall(s, chain, i - 1);
    }
  }

  /** One check, seen from the order of the keys. */
  lemma Turn(s: Store, chain: seq<Charge>, readings: seq<Reading>, i: nat)
    requires Walkable(s, chain) && 1 <= i <= |chain| <= |readings|
    ensures var t, t' := StoreBefore(s, chain, readings, i - 1), StoreBefore(s, chain, readings, i);
            var k := chain[i - 1].key;
            && Legal(t) && Legal(t')
            && t'.order == (if k !in t.windows && |t.order| == MAX_KEYS then t.order[EVICT_BATCH..] else t.order)
                           + (if k in t.windows then [] else [k])
  {
    hide CheckStep, Legal;
    LegalBefore(s, chain, readings, i - 1);
    LegalBefore(s, chain, readings, i);
    assert chain[i - 1] in chain;
    EvictionFires(StoreBefore(s, chain, readings, i - 1), chain[i - 1].key, chain[i - 1].rule, readings[i - 1].now);
  }

  lemma LegalKeys(s: Store, k: Key)
    requires Legal(s)
    ensures k in s.windows <==> k in s.order
  {}

  /** As long as the new keys fit, the chain only appends them. */
  lemma {:induction false} OnlyAppends(s: Store, chain: seq<Charge>, readings: seq<Reading>, i: nat)
    requires Walkable(s, chain) && i <= |chain| <= |readings| && |s.order| + NewBefore(s, chain, i) <= MAX_KEYS
    ensures var t := StoreBefore(s, chain, readings, i);
            && Legal(t) && |t.order| == |s.order| + NewBefore(s, chain, i) && s.order <= t.order
            && forall k :: k in t.order <==> k in s.order || ChargedBefore(chain, i, k)
  {
    hide CheckStep, Legal, WellOrdered;
    if i > 0 {
      OnlyAppends(s, chain, readings, i - 1);
      Turn(s, chain, readings, i);
      var t, t', key := StoreBefore(s, chain, readings, i - 1), StoreBefore(s, chain, readings, i), chain[i - 1].key;
      LegalKeys(s, key);
      LegalKeys(t, key);
      assert !ChargedBefore(chain, i - 1, key);
      forall k ensures k in t'.order <==> k in s.order || ChargedBefore(chain, i, k) {
        assert ChargedBefore(chain, i, k) <==> ChargedBefore(chain, i - 1, k) || k == key by {
          ChargedNext(chain, i, k);
        }
      }
    }
  }

  lemma ChargedNext(chain: seq<Charge>, i: nat, k: Key)
    requires 1 <= i <= |chain|
    ensures ChargedBefore(chain, i, k) <==> ChargedBefore(chain, i - 1, k) || k == chain[i - 1].key
  {
    if k == chain[i - 1].key {
      assert chain[i - 1].key == k;
    }
  }

  /** The check that fills the store up takes the oldest keys and no other of the old ones. */
  lemma EvictsOldest(s: Store, chain: seq<Charge>, readings: seq<Reading>, j: nat, k: Key)
    requires Walkable(s, chain) && j < |chain| <= |readings| && FillsUp(s, chain, j) && !ChargedBefore(chain, j + 1, k)
    ensures var t := StoreBefore(s, chain, readings, j + 1);
            && |t.order| <= MAX_KEYS - EVICT_BATCH + 1
            && (k in t.order <==> k in s.order && !AmongOldest(s, k))
  {
    hide CheckStep;
    OnlyAppends(s, chain, readings, j);
    Turn(s, chain, readings, j + 1);
    NewBeforeIsSmall(s, chain, j);
    ChargedNext(chain, j + 1, k);
    ChargedNext(chain, j + 1, chain[j].key);
    var t := StoreBefore(s, chain, readings, j);
    LegalKeys(s, chain[j].key);
    LegalKeys(t, chain[j].key);
    assert !ChargedBefore(chain, j, chain[j].key);
    DropOldest(s, t, k);
  }

  lemma DropOldest(s: Store, t: Store, k: Key)
    requires Legal(t) && s.order <= t.order && |s.order| >= EVICT_BATCH && (k in t.order <==> k in s.order)
    ensures k in t.order[EVICT_BATCH..] <==> k in s.order && !AmongOldest(s, k)
  {
    var kept := t.order[EVICT_BATCH..];
    assert forall p :: 0 <= p < |kept| ==> kept[p] == t.order[EVICT_BATCH + p];
    assert forall p :: 0 <= p < EVICT_BATCH ==> s.order[p] == t.order[p];
    if k in t.order {
      var q :| 0 <= q < |t.order| && t.order[q] == k;
      if q >= EVICT_BATCH {
        assert kept[q - EVICT_BATCH] == k;
      }
    }
  }

  /** After it there is room again: the rest of the chain evicts nothing more. */
  lemma {:induction false} EvictedStays(s: Store, chain: seq<Charge>, readings: seq<Reading>, j: nat, i: nat, k: Key)
    requires Walkable(s, chain) && j < i <= |chain| <= |readings| && FillsUp(s, chain, j) && !ChargedBefore(chain, i, k)
    ensures var t := StoreBefore(s, chain, readings, i);
            && Legal(t) && |t.order| <= MAX_KEYS - EVICT_BATCH + (i - j)
            && (k in t.order <==> k in s.order && !AmongOldest(s, k))
    decreases i
  {
    hide CheckStep, Legal, AmongOldest, FillsUp;
    ChargedNext(chain, i, k);
    Turn(s, chain, readings, i);
    if i == j + 1 {
      EvictsOldest(s, chain, readings, j, k);
    } else {
      EvictedStays(s, chain, readings, j, i - 1, k);
    }
  }

  /** A tier finds its key gone exactly when an earlier tier fills the store up and the key is
      among the oldest: a condition on the store and the chain before the request. */
  lemma LosesExactly(s: Store, chain: seq<Charge>, readings: seq<Reading>, i: nat)
    requires Walkable(s, chain) && i < |chain| <= |readings|
    ensures Loses(s, StoreBefore(s, chain, readings, i), chain[i].key) <==> EvictedBefore(s, chain, i)
  {
    hide CheckStep, WellOrdered, FillsUp;
    var k, t := chain[i].key, StoreBefore(s, chain, readings, i);
    assert !ChargedBefore(chain, i, k);
    LegalBefore(s, chain, readings, i);
    LegalKeys(s, k);
    LegalKeys(t, k);
    if j :| 0 <= j < i && FillsUp(s, chain, j) {
      EvictedStays(s, chain, readings, j, i, k);
    } else {
      NeverFull(s, chain, i);
      OnlyAppends(s, chain, readings, i);
    }
  }

  /** On the fallback map a request is forwarded exactly when each of its tiers would have
      admitted it on arrival, or has its key among the oldest of a store that an earlier tier of
      the request fills up. */
  lemma ForwardedLocally(s: Store, settings: Settings, r: Request, readings: seq<Reading>)
    requires Legal(s) && |readings| >= 4
    ensures |Chain(settings, r)| <= 4
    ensures var chain := Chain(settings, r);
            LocalWalk(s, chain, readings).1.Forwarded?
            <==> forall i :: 0 <= i < |chain| ==> AdmitsNow(s, chain[i], readings[i]) || EvictedBefore(s, chain, i)
  {
    hide Chain, LocalWalk, AdmitsNow, Loses, Legal, StoreBefore, EvictedBefore;
    AtMostFourWindows(settings, r);
    ChainIsPositive(settings, r);
    var chain := Chain(settings, r);
    var n := LocalWalkIs(s, chain, readings);
    forall i | 0 <= i < |chain|
      ensures AdmitsNow(StoreBefore(s, chain, readings, i), chain[i], readings[i])
              <==> AdmitsNow(s, chain[i], readings[i]) || EvictedBefore(s, chain, i)
    {
      TurnIsPrior(s, chain, readings, i);
      LosesExactly(s, chain, readings, i);
    }
  }

  /** With room for four keys nothing is evicted on the way, and a request is forwarded exactly
      when all its tiers admit it. */
  lemma ForwardedWhenAllAdmit(s: Store, settings: Settings, r: Request, readings: seq<Reading>)
    requires Legal(s) && |readings| >= 4 && |s.order| + 4 <= MAX_KEYS
    ensures |Chain(settings, r)| <= 4
    ensures var chain := Chain(settings, r);
            LocalWalk(s, chain, readings).1.Forwarded?
            <==> forall i :: 0 <= i < |chain| ==> AdmitsNow(s, chain[i], readings[i])
  {
    hide Chain, LocalWalk, AdmitsNow, Legal, AmongOldest;
    ForwardedLocally(s, settings, r, readings);
    var chain := Chain(settings, r);
    forall j: nat | j < |chain| ensures !FillsUp(s, chain, j) {
      NewBeforeIsSmall(s, chain, j);
    }
  }

  /** The health check alone is never charged, whatever its verb, caller and settings. */
  lemma HealthIsFree(s: Store, db: Option<Db>, settings: Settings, r: Request, onRedis: seq<Reading>,
                     local: seq<Reading>)
    requires |onRedis| >= 4 && |local| >= 4
    ensures r.path == "/health" ==> DispatchStep(s, db, settings, r, onRedis, local) == (s, db, Forwarded)
    ensures r.path in BYPASS_PATHS ==> r.path == "/health"
  {}

  // ------------------------------------------------------------------ a full store

  function AllAt(now: int): (readings: seq<Reading>)
    ensures |readings| == 4 && forall i :: 0 <= i < 4 ==> readings[i].now == now
  {
    seq(4, _ => Reading(now, "", NotRun))
  }

  function Times(n: nat, now: int): (ts: seq<int>)
    ensures |ts| == n && forall i :: 0 <= i < n ==> ts[i] == now
  {
    seq(n, _ => now)
  }

  /** Where a process has its map after these requests, all at one moment without Redis. */
  function Served(settings: Settings, rs: seq<Request>, now: int): Store
    decreases |rs|
  {
    if rs == [] then EMPTY
    else
      var before := Served(settings, rs[..|rs| - 1], now);
      DispatchStep(before, None, settings, rs[|rs| - 1], AllAt(now), AllAt(now)).0
  }

  /** A user's hundred requests from one address, then webhook calls from ever new ones. */
  function Caller(ip: string, user: string, n: nat): Request {
    if n < 100 then Request(GET, "/", ip, Some(user)) else Request(POST, "/billing/webhook", Address(n - 100), None)
  }

  function Address(n: nat): string {
    seq(n, _ => 'x')
  }

  function Crowd(ip: string, user: string, n: nat): seq<Request> {
    if n == 0 then [] else Crowd(ip, user, n - 1) + [Caller(ip, user, n - 1)]
  }

  /** The map after `j` requests of the user and `m` webhook calls. */
  function Filled(ip: string, user: string, now: int, j: nat, m: nat): Store {
    if m == 0 then
      Store([Key(Ip, ip), Key(User, user)],
            map[Key(Ip, ip) := Times(j, now), Key(User, user) := Times(j, now)])
    else Put(Filled(ip, user, now, j, m - 1), Key(WebhookIp, Address(m - 1)), [now])
  }

  lemma {:induction false} FilledIs(ip: string, user: string, now: int, j: nat, m: nat)
    ensures var s := Filled(ip, user, now, j, m);
            && WellOrdered(s) && |s.order| == m + 2 && s.order[1] == Key(User, user)
            && Stamps(s, Key(User, user)) == Times(j, now)
  {
    if m > 0 {
      FilledIs(ip, user, now, j, m - 1);
      FilledKeys(ip, user, now, j, m - 1);
      PutOrdered(Filled(ip, user, now, j, m - 1), Key(WebhookIp, Address(m - 1)), [now]);
      hide WellOrdered;
    }
  }

  lemma {:induction false} FilledKeys(ip: string, user: string, now: int, j: nat, m: nat)
    ensures forall k :: k in Filled(ip, user, now, j, m).windows ==>
              k == Key(Ip, ip) || k == Key(User, user) || (k.tier == WebhookIp && |k.subject| < m)
  {
    if m > 0 {
      FilledKeys(ip, user, now, j, m - 1);
    }
  }

  lemma {:induction false} AllStillLive(n: nat, now: int, start: int)
    requires start < now
    ensures Prune(Times(n, now), start) == Times(n, now)
  {
    var ts := Times(n, now);
    if n > 0 {
      assert ts[..n - 1] == Times(n - 1, now);
      AllStillLive(n - 1, now, start);
    }
  }

  /** A path no tier names. */
  lemma PlainChain(settings: Settings, ip: string, user: string)
    requires user != ""
    ensures Chain(settings, Request(GET, "/", ip, Some(user)))
            == [ChargeOf(settings, Ip, ip), ChargeOf(settings, User, user)]
  {
    var r := Request(GET, "/", ip, Some(user));
    forall t ensures !Names(t, GET, "/") {
      if i :| 0 <= i < |PatternsOf(t)| && Paths.Matches(PatternsOf(t)[i], "/") {
        Paths.SegmentsSpellPath("/");
        Paths.FirstSegmentStarts(PatternsOf(t)[i], "/");
      }
    }
    hide Names, Terms;
    IpPart(settings, r);
    UserPart(settings, r, user);
    assert "/" !in WEBHOOK_PATHS && "/" !in LOGIN_PATHS;
  }

  /** A check of a key whose stamps are all live and short of the limit, in a map with room. */
  lemma RoomyCheck(s: Store, key: Key, rule: Rule, now: int, j: nat)
    requires Stamps(s, key) == Times(j, now) && j < rule.limit && rule.window >= 1
    requires |Put(s, key, []).order| <= MAX_KEYS
    ensures CheckStep(s, key, rule, now) == (Put(s, key, Times(j + 1, now)), true)
  {
    AllStillLive(j, now, now - rule.window);
    assert Times(j, now) + [now] == Times(j + 1, now);
  }

  function Begun(ip: string, user: string, now: int, j: nat): Store {
    if j == 0 then EMPTY else Filled(ip, user, now, j, 0)
  }

  lemma UserCall(settings: Settings, ip: string, user: string, now: int, j: nat)
    requires user != "" && j < 100
    ensures DispatchStep(Begun(ip, user, now, j), None, settings, Caller(ip, user, j), AllAt(now), AllAt(now)).0
            == Begun(ip, user, now, j + 1)
  {
    var s, a, b := Begun(ip, user, now, j), ChargeOf(settings, Ip, ip), ChargeOf(settings, User, user);
    PlainChain(settings, ip, user);
    AtMostFourWindows(settings, Caller(ip, user, j));
    hide Chain, CheckStep;
    RoomyCheck(s, a.key, a.rule, now, j);
    var t := Put(s, a.key, Times(j + 1, now));
    RoomyCheck(t, b.key, b.rule, now, j);
    TwoWalk(s, a, b, AllAt(now));
    var u := Begun(ip, user, now, j + 1);
    assert Put(t, b.key, Times(j + 1, now)).order == u.order;
    assert Put(t, b.key, Times(j + 1, now)).windows == u.windows;
  }

  lemma TwoWalk(s: Store, a: Charge, b: Charge, readings: seq<Reading>)
    requires |readings| >= 2
    requires CheckStep(s, a.key, a.rule, readings[0].now).1
    ensures var t := CheckStep(s, a.key, a.rule, readings[0].now).0;
            LocalWalk(s, [a, b], readings).0 == CheckStep(t, b.key, b.rule, readings[1].now).0
  {
    hide CheckStep;
    assert [a, b][1..] == [b];
    OneWalk(CheckStep(s, a.key, a.rule, readings[0].now).0, b, readings[1..]);
  }

  lemma OneWalk(s: Store, c: Charge, readings: seq<Reading>)
    requires |readings| >= 1
    ensures LocalWalk(s, [c], readings).0 == CheckStep(s, c.key, c.rule, readings[0].now).0
  {
    hide CheckStep;
    assert [c][1..] == [];
  }

  lemma WebhookCall(settings: Settings, ip: string, user: string, now: int, m: nat)
    requires m + 2 < MAX_KEYS
    ensures var s, r := Filled(ip, user, now, 100, m), Caller(ip, user, 100 + m);
            DispatchStep(s, None, settings, r, AllAt(now), AllAt(now)).0 == Filled(ip, user, now, 100, m + 1)
  {
    var s, r, c := Filled(ip, user, now, 100, m), Caller(ip, user, 100 + m), ChargeOf(settings, WebhookIp, Address(m));
    AtMostFourWindows(settings, r);
    assert Chain(settings, r) == [c];
    FilledIs(ip, user, now, 100, m);
    FilledKeys(ip, user, now, 100, m);
    assert c.key !in s.windows;
    hide Chain, CheckStep, Filled;
    assert Stamps(s, c.key) == [] == Times(0, now);
    OneWalk(s, c, AllAt(now));
    RoomyCheck(s, c.key, c.rule, now, 0);
    assert Times(1, now) == [now];
    hide LocalWalk;
    assert Filled(ip, user, now, 100, m + 1) == Put(s, c.key, [now]) by { FilledNext(ip, user, now, 100, m); }
  }

  lemma FilledNext(ip: string, user: string, now: int, j: nat, m: nat)
    ensures Filled(ip, user, now, j, m + 1)
            == Put(Filled(ip, user, now, j, m), Key(WebhookIp, Address(m)), [now])
  {}

  lemma {:induction false} CrowdFills(settings: Settings, ip: string, user: string, now: int, n: nat)
    requires user != "" && n <= 98 + MAX_KEYS
    ensures Served(settings, Crowd(ip, user, n), now)
            == if n <= 100 then Begun(ip, user, now, n) else Filled(ip, user, now, 100, n - 100)
  {
    hide DispatchStep, Filled, Caller;
    if n > 0 {
      CrowdFills(settings, ip, user, now, n - 1);
      var rs := Crowd(ip, user, n);
      assert rs[..|rs| - 1] == Crowd(ip, user, n - 1) && rs[|rs| - 1] == Caller(ip, user, n - 1);
      if n <= 100 {
        UserCall(settings, ip, user, now, n - 1);
      } else {
        WebhookCall(settings, ip, user, now, n - 101);
      }
    }
  }

  lemma OldestIsHeld(s: Store, k: Key)
    requires Legal(s) && AmongOldest(s, k)
    ensures k in s.windows
  {}

  /** On any full store that does not hold the first key and has the second one among its oldest:
      charging the first evicts the second, whose tier then admits although it would have
      rejected. */
  lemma FullStoreForgets(s: Store, a: Charge, b: Charge, readings: seq<Reading>)
    requires |readings| >= 2 && a.rule.limit >= 1 && b.rule.limit >= 1
    requires Legal(s) && |s.order| == MAX_KEYS && AmongOldest(s, b.key) && a.key !in s.windows
    requires |Prune(Stamps(s, b.key), readings[1].now - b.rule.window)| >= b.rule.limit
    ensures !AdmitsNow(s, b, readings[1])
    ensures LocalWalk(s, [a, b], readings).1 == Forwarded
  {
    var chain := [a, b];
    hide CheckStep, Legal, LocalWalk, Prune, AmongOldest, Put, Evict;
    OldestIsHeld(s, b.key);
    CheckSelf(s, a.key, a.rule, readings[0].now);
    CheckSelf(s, b.key, b.rule, readings[1].now);
    PruneNothing(readings[0].now - a.rule.window);
    assert FillsUp(s, chain, 0);
    assert EvictedBefore(s, chain, 1);
    TurnIsPrior(s, chain, readings, 1);
    LosesExactly(s, chain, readings, 1);
    var n := LocalWalkIs(s, chain, readings);
    assert AdmitsNow(StoreBefore(s, chain, readings, 0), a, readings[0]);
  }

  /** How many requests fill the map: each webhook call adds one key to the user's two. */
  const CROWD: nat := 98 + MAX_KEYS

  /** The exception is real: without Redis a crowd fills the map, and a request from a new
      address that its user tier would have rejected on arrival is forwarded, because charging
      the address evicts the very history the user tier would have counted. */
  lemma RejectedOnArrivalYetForwarded(settings: Settings, home: string, ip: string, user: string, now: int,
                                      readings: seq<Reading>)
    requires user != "" && home != ip && |readings| >= 4 && readings[1].now < now + 60
    ensures var s, chain := Served(settings, Crowd(home, user, CROWD), now),
                            Chain(settings, Request(GET, "/", ip, Some(user)));
            && Legal(s) && |chain| == 2
            && !AdmitsNow(s, chain[1], readings[1])
            && LocalWalk(s, chain, readings).1 == Forwarded
  {
    hide Crowd, Served, Filled, Chain, LocalWalk, AdmitsNow, Prune, Stamps;
    var s := Filled(home, user, now, 100, MAX_KEYS - 2);
    CrowdFills(settings, home, user, now, CROWD);
    FilledIs(home, user, now, 100, MAX_KEYS - 2);
    FilledKeys(home, user, now, 100, MAX_KEYS - 2);
    PlainChain(settings, ip, user);
    assert AmongOldest(s, Key(User, user));
    AllStillLive(100, now, readings[1].now - 60);
    hide Legal, AmongOldest;
    assert Legal(s) by { FilledIsLegal(s); }
    FullStoreForgets(s, ChargeOf(settings, Ip, ip), ChargeOf(settings, User, user), readings);
  }

  lemma FilledIsLegal(s: Store)
    requires WellOrdered(s) && |s.order| <= MAX_KEYS
    ensures Legal(s)
  {}

  /** A rejection names the window of the tier that rejected, and every other key of the store
      keeps its stamps unless it was evicted: tiers after the rejecting one are not charged. */
  lemma RejectionChargesPrefix(s: Store, settings: Settings, r: Request, readings: seq<Reading>) returns (n: nat)
    requires Legal(s) && |readings| >= 4
    ensures |Chain(settings, r)| <= 4
    requires var chain := Chain(settings, r); |chain| <= 4 ==> LocalWalk(s, chain, readings).1.TooMany?
    ensures var chain := Chain(settings, r);
            var (t, response) := LocalWalk(s, chain, readings);
            && n < |chain|
            && response == TooMany(RulesOf(settings)(chain[n].key).window)
            && forall k :: (forall j :: 0 <= j <= n ==> chain[j].key != k) ==>
                 Stamps(t, k) == (if Loses(s, t, k) then [] else Stamps(s, k))
  {
    hide Chain, LocalWalk, AdmitsNow, Loses, Legal, StoreBefore, Stamps, RulesOf;
    AtMostFourWindows(settings, r);
    var chain := Chain(settings, r);
    n := LocalWalkIs(s, chain, readings);
    ChainFollowsRules(settings, r, n);
    forall k | forall j :: 0 <= j <= n ==> chain[j].key != k
      ensures var t := LocalWalk(s, chain, readings).0;
              Stamps(t, k) == (if Loses(s, t, k) then [] else Stamps(s, k))
    {
      UntouchedBefore(s, chain, readings, n + 1, k);
    }
  }

  // ------------------------------------------------------------------ the same on Redis

  function DbBefore(db: Db, chain: seq<Charge>, readings: seq<Reading>, i: nat): Db
    requires i <= |chain| <= |readings|
    decreases i
  {
    if i == 0 then db
    else
      var c, reading := chain[i - 1], readings[i - 1];
      ScriptStep(DbBefore(db, chain, readings, i - 1), c.key, c.rule, reading.now, reading.member, true).0
  }

  predicate RedisAdmits(db: Db, c: Charge, reading: Reading) {
    ScriptStep(db, c.key, c.rule, reading.now, reading.member, true).1
  }

  lemma {:induction false} DbBeforeTail(db: Db, chain: seq<Charge>, readings: seq<Reading>, i: nat)
    requires 1 <= i <= |chain| <= |readings|
    ensures var db' := ScriptStep(db, chain[0].key, chain[0].rule, readings[0].now, readings[0].member, true).0;
            DbBefore(db, chain, readings, i) == DbBefore(db', chain[1..], readings[1..], i - 1)
  {
    hide ScriptStep;
    if i > 1 {
      DbBeforeTail(db, chain, readings, i - 1);
    }
  }

  lemma {:induction false} DbUntouched(db: Db, chain: seq<Charge>, readings: seq<Reading>, i: nat, k: Key)
    requires i <= |chain| <= |readings|
    requires forall j :: 0 <= j < i ==> chain[j].key != k
    ensures var db' := DbBefore(db, chain, readings, i);
            (k in db' <==> k in db) && (k in db ==> db'[k] == db[k])
  {
    hide ScriptStep;
    if i > 0 {
      DbUntouched(db, chain, readings, i - 1, k);
      var c, reading := chain[i - 1], readings[i - 1];
      ScriptOther(DbBefore(db, chain, readings, i - 1), k, c.rule, Call(c.key, reading.now, reading.member), true);
    }
  }

  lemma SameEntrySameAnswer(db: Db, db': Db, c: Charge, reading: Reading)
    requires (c.key in db' <==> c.key in db) && (c.key in db ==> db'[c.key] == db[c.key])
    ensures RedisAdmits(db', c, reading) == RedisAdmits(db, c, reading)
  {
    hide Later;
  }

  /** A walk on Redis stops at the first tier whose call fails or that rejects; each tier asked
      answers as it would have before the request arrived, and no other key has changed. */
  lemma {:induction false} RedisWalkIs(db: Db, chain: seq<Charge>, readings: seq<Reading>) returns (n: nat)
    requires |readings| >= |chain| && DistinctKeys(chain)
    ensures n <= |chain|
    ensures forall i :: 0 <= i < n ==> readings[i].outcome == Answered && RedisAdmits(db, chain[i], readings[i])
    ensures n < |chain| ==> readings[n].outcome != Answered || !RedisAdmits(db, chain[n], readings[n])
    ensures RedisWalk(db, chain, readings)
            == if n == |chain| then (DbBefore(db, chain, readings, n), Decided(Forwarded))
               else if readings[n].outcome == NotRun then (DbBefore(db, chain, readings, n), RedisError)
               else (DbBefore(db, chain, readings, n + 1),
                     if readings[n].outcome == ReplyLost then RedisError else Decided(TooMany(chain[n].retryAfter)))
    decreases |chain|
  {
    hide ScriptStep;
    n := 0;
    if chain != [] {
      var (db', ok) := ScriptStep(db, chain[0].key, chain[0].rule, readings[0].now, readings[0].member, true);
      if readings[0].outcome == Answered && ok {
        var m := RedisWalkIs(db', chain[1..], readings[1..]);
        n := m + 1;
        DbBeforeTail(db, chain, readings, n);
        if n < |chain| { DbBeforeTail(db, chain, readings, n + 1); }
        forall i | 1 <= i < |chain|
          ensures RedisAdmits(db', chain[i], readings[i]) == RedisAdmits(db, chain[i], readings[i])
        {
          ScriptOther(db, chain[i].key, chain[0].rule, Call(chain[0].key, readings[0].now, readings[0].member), true);
          SameEntrySameAnswer(db, db', chain[i], readings[i]);
        }
        forall i | 0 <= i < n ensures readings[i].outcome == Answered && RedisAdmits(db, chain[i], readings[i]) {
          if i > 0 {
            assert readings[1..][i - 1].outcome == Answered
                && RedisAdmits(db', chain[1..][i - 1], readings[1..][i - 1]);
          }
        }
      }
    }
  }

  /** The whole dispatch.  While Redis answers, a request is forwarded exactly when every tier
      admits it on the database it met, and the fallback map is not touched.  Once a Redis
      call fails, the response is the fallback map's own verdict on the whole chain. */
  lemma DispatchDecides(s: Store, db: Db, settings: Settings, r: Request, onRedis: seq<Reading>, local: seq<Reading>)
    requires |onRedis| >= 4 && |local| >= 4 && r.path !in BYPASS_PATHS
    ensures |Chain(settings, r)| <= 4
    ensures var chain := Chain(settings, r);
            var (s', db', response) := DispatchStep(s, Some(db), settings, r, onRedis, local);
            var admitted := forall i :: 0 <= i < |chain| ==>
                              onRedis[i].outcome == Answered && RedisAdmits(db, chain[i], onRedis[i]);
            && (admitted ==> response == Forwarded && s' == s)
            && (!admitted ==>
                  exists n :: 0 <= n < |chain|
                    && (forall i :: 0 <= i < n ==>
                          onRedis[i].outcome == Answered && RedisAdmits(db, chain[i], onRedis[i]))
                    && if onRedis[n].outcome == Answered
                       then !RedisAdmits(db, chain[n], onRedis[n]) && s' == s
                            && response == TooMany(RulesOf(settings)(chain[n].key).window)
                       else (s', response) == LocalWalk(s, chain, local))
  {
    hide Chain, RedisAdmits, RulesOf, LocalWalk, RedisWalk, DbBefore, BYPASS_PATHS;
    AtMostFourWindows(settings, r);
    var chain := Chain(settings, r);
    var n := RedisWalkIs(db, chain, onRedis);
    if n < |chain| {
      ChainFollowsRules(settings, r, n);
    }
  }
}
