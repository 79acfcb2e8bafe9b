/** The Redis limiter: a Lua script over one sorted set per key, with a TTL, run atomically
    by the server; the exact log of admitted calls; and the proof that the script, the local
    list check and the log always answer alike. */
module RedisWindow {
  import opened SlidingWindow
  import opened LocalFallback

  datatype Expiry = Never | At(tick: int)

  /** A sorted set: member -> score, and when Redis will drop the whole key. */
  datatype ZSet = ZSet(scores: map<string, int>, expiry: Expiry)

  type Db = map<Key, ZSet>

  /** How a call to Redis ends: answered, never run, or run with the reply lost. */
  datatype Outcome = Answered | NotRun | ReplyLost

  /** ZREMRANGEBYSCORE -inf start: what is left has a score above `start`. */
  function Later(scores: map<string, int>, start: int): map<string, int> {
    map m | m in scores && scores[m] > start :: scores[m]
  }

  /** What a command at `now` finds under a key.  With `ttl` off, keys never expire. */
  function Found(db: Db, key: Key, now: int, ttl: bool): map<string, int> {
    if key in db && !(ttl && db[key].expiry.At? && db[key].expiry.tick <= now) then db[key].scores
    else map[]
  }

  /** The whole effect and the answer of the script. */
  function ScriptStep(db: Db, key: Key, rule: Rule, now: int, member: string, ttl: bool): (Db, bool) {
    var kept := Later(Found(db, key, now, ttl), now - rule.window);
    if |kept| >= rule.limit then
      (if kept == map[] then db - {key} else db[key := ZSet(kept, db[key].expiry)], false)
    else
      (db[key := ZSet(kept[member := now], At(now + rule.window))], true)
  }

  // The commands the script uses, as functions of the database.

  /** Redis drops an expired key before it runs a command on it. */
  function Touched(db: Db, key: Key, now: int): Db {
    if key in db && db[key].expiry.At? && db[key].expiry.tick <= now then db - {key} else db
  }

  /** A sorted set left empty disappears, and its TTL with it. */
  function Removed(db: Db, key: Key, start: int): Db {
    if key !in db then db
    else
      var kept := Later(db[key].scores, start);
      if kept == map[] then db - {key} else db[key := ZSet(kept, db[key].expiry)]
  }

  function Added(db: Db, key: Key, score: int, member: string): Db {
    db[key := if key in db then ZSet(db[key].scores[member := score], db[key].expiry)
              else ZSet(map[member := score], Never)]
  }

  function Expiring(db: Db, key: Key, now: int, ttl: nat): Db {
    if key in db then db[key := ZSet(db[key].scores, At(now + ttl))] else db
  }

  lemma RemovedIs(db: Db, key: Key, rule: Rule, now: int)
    ensures var kept := Later(Found(db, key, now, true), now - rule.window);
            var db' := Removed(Touched(db, key, now), key, now - rule.window);
            && (kept == map[] ==> db' == db - {key})
            && (kept != map[] ==> key in db && db' == db[key := ZSet(kept, db[key].expiry)])
            && (key in db' <==> kept != map[])
  {}

  lemma AddedIs(db: Db, db': Db, key: Key, kept: map<string, int>, expiry: Expiry, now: int, member: string, ttl: nat)
    requires db' == if kept == map[] then db - {key} else db[key := ZSet(kept, expiry)]
    ensures Expiring(Added(db', key, now, member), key, now, ttl) == db[key := ZSet(kept[member := now], At(now + ttl))]
  {
    var done := Expiring(Added(db', key, now, member), key, now, ttl);
    assert done[key].scores == kept[member := now];
    assert forall k :: k != key && k in done ==> done[k] == db[k];
  }

  /** The server, command by command. */
  class Server {
    var db: Db

    constructor ()
      ensures db == map[]
    {
      db := map[];
    }

    method Touch(key: Key, now: int)
      modifies this
      ensures db == Touched(old(db), key, now)
    {
      if key in db && db[key].expiry.At? && db[key].expiry.tick <= now {
        db := db - {key};
      }
    }

    method ZRemRangeByScore(key: Key, start: int)
      modifies this
      ensures db == Removed(old(db), key, start)
    {
      if key in db {
        var kept := Later(db[key].scores, start);
        db := if kept == map[] then db - {key} else db[key := ZSet(kept, db[key].expiry)];
      }
    }

    method ZCard(key: Key) returns (n: nat)
      ensures n == if key in db then |db[key].scores| else 0
    {
      n := if key in db then |db[key].scores| else 0;
    }

    method ZAdd(key: Key, score: int, member: string)
      modifies this
      ensures db == Added(old(db), key, score, member)
    {
      db := db[key := if key in db then ZSet(db[key].scores[member := score], db[key].expiry)
                      else ZSet(map[member := score], Never)];
    }

    method Expire(key: Key, now: int, ttl: nat)
      modifies this
      ensures db == Expiring(old(db), key, now, ttl)
    {
      if key in db {
        db := db[key := ZSet(db[key].scores, At(now + ttl))];
      }
    }

    /** `_SLIDING_WINDOW_LUA`. */
    method Eval(key: Key, rule: Rule, now: int, member: string) returns (allowed: bool)
      modifies this
      ensures (db, allowed) == ScriptStep(old(db), key, rule, now, member, true)
    {
      hide Later, Found, Touched, Removed, Added, Expiring;
      ghost var was, kept := db, Later(Found(db, key, now, true), now - rule.window);
      RemovedIs(was, key, rule, now);
      Touch(key, now);
      ZRemRangeByScore(key, now - rule.window);
      var count := ZCard(key);
      if count >= rule.limit {
        return false;
      }
      AddedIs(was, db, key, kept, if key in was then was[key].expiry else Never, now, member, rule.window);
      ZAdd(key, now, member);
      Expire(key, now, rule.window);
      return true;
    }
  }

  lemma LaterOfNothing(start: int)
    ensures Later(map[], start) == map[]
  {}

  lemma LaterLater(scores: map<string, int>, s1: int, s2: int)
    requires s1 <= s2
    ensures Later(Later(scores, s1), s2) == Later(scores, s2)
  {}

  // ------------------------------------------------------------------ the exact log

  /** Times of the admissions of `key` later than `start`, in a log of admitted calls. */
  function LogTimes(log: seq<Call>, key: Key, start: int): seq<int> {
    if log == [] then []
    else
      var c := log[|log| - 1];
      LogTimes(log[..|log| - 1], key, start) + (if c.key == key && c.now > start then [c.now] else [])
  }

  /** The same admissions as a sorted set would hold them. */
  function LogScores(log: seq<Call>, key: Key, start: int): map<string, int> {
    if log == [] then map[]
    else
      var c := log[|log| - 1];
      var earlier := LogScores(log[..|log| - 1], key, start);
      if c.key == key && c.now > start then earlier[c.member := c.now] else earlier
  }

  /** The limiter as its documentation states it: fewer than `limit` admissions in the window. */
  function LogStep(log: seq<Call>, c: Call, rule: Rule): (seq<Call>, bool) {
    if |LogTimes(log, c.key, c.now - rule.window)| >= rule.limit then (log, false)
    else (log + [c], true)
  }

  ghost predicate DistinctMembers(calls: seq<Call>) {
    forall i, j :: 0 <= i < j < |calls| ==> calls[i].member != calls[j].member
  }

  lemma LogAppend(log: seq<Call>, c: Call, key: Key, start: int)
    ensures LogTimes(log + [c], key, start)
            == LogTimes(log, key, start) + (if c.key == key && c.now > start then [c.now] else [])
    ensures LogScores(log + [c], key, start)
            == (if c.key == key && c.now > start then LogScores(log, key, start)[c.member := c.now]
                else LogScores(log, key, start))
  {
    assert (log + [c])[..|log|] == log;
  }

  lemma {:induction false} LogTimesLater(log: seq<Call>, key: Key, s1: int, s2: int)
    requires s1 <= s2
    ensures LogTimes(log, key, s2) == Prune(LogTimes(log, key, s1), s2)
  {
    if log != [] {
      var n := |log| - 1;
      LogTimesLater(log[..n], key, s1, s2);
      if log[n].key == key && log[n].now > s1 {
        PruneAppend(LogTimes(log[..n], key, s1), log[n].now, s2);
      } else {
        assert LogTimes(log, key, s1) == LogTimes(log[..n], key, s1);
        assert LogTimes(log, key, s2) == LogTimes(log[..n], key, s2);
      }
    }
  }

  lemma {:induction false} LogMembers(log: seq<Call>, key: Key, start: int, m: string)
    requires m in LogScores(log, key, start)
    ensures exists i :: 0 <= i < |log| && log[i].member == m
  {
    var n := |log| - 1;
    if log[n].member != m {
      LogMembers(log[..n], key, start, m);
      var i :| 0 <= i < n && log[..n][i].member == m;
      assert log[i].member == m;
    }
  }

  lemma {:induction false} LogScoresLater(log: seq<Call>, key: Key, s1: int, s2: int)
    requires s1 <= s2 && DistinctMembers(log)
    ensures LogScores(log, key, s2) == Later(LogScores(log, key, s1), s2)
  {
    if log != [] {
      var n := |log| - 1;
      LogScoresLater(log[..n], key, s1, s2);
      var m := log[n].member;
      if m in LogScores(log[..n], key, s1) {
        LogMembers(log[..n], key, s1, m);
      }
    }
  }

  lemma {:induction false} LogCount(log: seq<Call>, key: Key, start: int)
    requires DistinctMembers(log)
    ensures |LogScores(log, key, start)| == |LogTimes(log, key, start)|
  {
    if log != [] {
      var n := |log| - 1;
      LogCount(log[..n], key, start);
      var m := log[n].member;
      if m in LogScores(log[..n], key, start) {
        LogMembers(log[..n], key, start, m);
      }
    }
  }

  // ------------------------------------------------------------------ agreement

  /** At `now`, the list and the log hold the same live admissions of `k`. */
  ghost predicate LocalOn(rule: Rule, s: Store, log: seq<Call>, k: Key, now: int) {
    Prune(Stamps(s, k), now - rule.window) == LogTimes(log, k, now - rule.window)
  }

  /** So do the sorted set and the log; and the set's TTL never ends before its members leave
      the window. */
  ghost predicate RedisOn(rule: Rule, db: Db, log: seq<Call>, k: Key, now: int, ttl: bool) {
    && Later(Found(db, k, now, ttl), now - rule.window) == LogScores(log, k, now - rule.window)
    && (k in db ==> Honest(db[k], rule, now))
  }

  ghost predicate Honest(z: ZSet, rule: Rule, now: int) {
    && (forall m :: m in z.scores ==> z.scores[m] <= now)
    && (z.expiry.At? ==> forall m :: m in z.scores ==> z.scores[m] <= z.expiry.tick - rule.window)
  }

  /** Waiting changes nothing, even when the key's TTL runs out meanwhile. */
  lemma ExpiryIsHarmless(db: Db, key: Key, rule: Rule, clock: int, now: int, ttl: bool)
    requires clock <= now && (key in db ==> Honest(db[key], rule, clock))
    ensures Later(Found(db, key, now, ttl), now - rule.window)
            == Later(Later(Found(db, key, clock, ttl), clock - rule.window), now - rule.window)
  {}

  lemma LocalLater(rule: Rule, s: Store, log: seq<Call>, k: Key, clock: int, now: int)
    requires LocalOn(rule, s, log, k, clock) && clock <= now
    ensures LocalOn(rule, s, log, k, now)
  {
    hide Prune, LogTimes;
    PrunePrune(Stamps(s, k), clock - rule.window, now - rule.window);
    LogTimesLater(log, k, clock - rule.window, now - rule.window);
  }

  lemma RedisLater(rule: Rule, db: Db, log: seq<Call>, k: Key, clock: int, now: int, ttl: bool)
    requires RedisOn(rule, db, log, k, clock, ttl) && clock <= now && DistinctMembers(log)
    ensures RedisOn(rule, db, log, k, now, ttl)
  {
    hide Later, Found, LogScores, DistinctMembers;
    LogScoresLater(log, k, clock - rule.window, now - rule.window);
    ExpiryIsHarmless(db, k, rule, clock, now, ttl);
  }

  lemma LocalAnswer(rule: Rule, s: Store, log: seq<Call>, c: Call)
    requires LocalOn(rule, s, log, c.key, c.now)
    ensures CheckStep(s, c.key, rule, c.now).1 == LogStep(log, c, rule).1
  {
    hide Prune, LogTimes, Evict;
  }

  lemma RedisAnswer(rule: Rule, db: Db, log: seq<Call>, c: Call, ttl: bool)
    requires RedisOn(rule, db, log, c.key, c.now, ttl) && DistinctMembers(log)
    ensures ScriptStep(db, c.key, rule, c.now, c.member, ttl).1 == LogStep(log, c, rule).1
  {
    hide Later, Found, LogTimes, LogScores, DistinctMembers;
    LogCount(log, c.key, c.now - rule.window);
  }

  lemma LaterUpdate(scores: map<string, int>, start: int, member: string, now: int)
    requires start < now
    ensures Later(Later(scores, start)[member := now], start) == Later(scores, start)[member := now]
  {}

  lemma ScriptHonest(db: Db, rule: Rule, c: Call, ttl: bool)
    requires c.key in db ==> Honest(db[c.key], rule, c.now)
    ensures var db' := ScriptStep(db, c.key, rule, c.now, c.member, ttl).0;
            c.key in db' ==> Honest(db'[c.key], rule, c.now)
  {
    var kept := Later(Found(db, c.key, c.now, ttl), c.now - rule.window);
    assert forall m :: m in kept ==> c.key in db && m in db[c.key].scores && kept[m] == db[c.key].scores[m];
    hide Later, Found;
  }

  /** The sorted set after one script run. */
  lemma ScriptSelf(db: Db, rule: Rule, c: Call, ttl: bool)
    requires rule.limit >= 1 && rule.window >= 1
    ensures var (db', ok) := ScriptStep(db, c.key, rule, c.now, c.member, ttl);
            var start := c.now - rule.window;
            var kept := Later(Found(db, c.key, c.now, ttl), start);
            Later(Found(db', c.key, c.now, ttl), start) == (if ok then kept[c.member := c.now] else kept)
  {
    hide Later;
    var start := c.now - rule.window;
    var (db', ok) := ScriptStep(db, c.key, rule, c.now, c.member, ttl);
    LaterOfNothing(start);
    LaterLater(Found(db, c.key, c.now, ttl), start, start);
    LaterUpdate(Found(db, c.key, c.now, ttl), start, c.member, c.now);
  }

  lemma LocalSelf(rule: Rule, s: Store, log: seq<Call>, c: Call)
    requires Legal(s) && rule.limit >= 1 && rule.window >= 1 && LocalOn(rule, s, log, c.key, c.now)
    ensures LocalOn(rule, CheckStep(s, c.key, rule, c.now).0, LogStep(log, c, rule).0, c.key, c.now)
  {
    hide CheckStep, Prune, LogTimes, WellOrdered;
    var start := c.now - rule.window;
    LocalAnswer(rule, s, log, c);
    CheckSelf(s, c.key, rule, c.now);
    PrunePrune(Stamps(s, c.key), start, start);
    PruneAppend(Prune(Stamps(s, c.key), start), c.now, start);
    LogAppend(log, c, c.key, start);
  }

  lemma RedisSelf(rule: Rule, db: Db, log: seq<Call>, c: Call, ttl: bool)
    requires rule.limit >= 1 && rule.window >= 1 && RedisOn(rule, db, log, c.key, c.now, ttl) && DistinctMembers(log)
    ensures RedisOn(rule, ScriptStep(db, c.key, rule, c.now, c.member, ttl).0, LogStep(log, c, rule).0, c.key, c.now,
                    ttl)
  {
    hide ScriptStep, Later, Found, LogTimes, LogScores, DistinctMembers, Honest;
    RedisAnswer(rule, db, log, c, ttl);
    ScriptSelf(db, rule, c, ttl);
    ScriptHonest(db, rule, c, ttl);
    LogAppend(log, c, c.key, c.now - rule.window);
  }

  lemma ScriptOther(db: Db, k: Key, cRule: Rule, c: Call, ttl: bool)
    requires k != c.key
    ensures var db' := ScriptStep(db, c.key, cRule, c.now, c.member, ttl).0;
            && (k in db' <==> k in db)
            && (k in db ==> db'[k] == db[k])
            && Found(db', k, c.now, ttl) == Found(db, k, c.now, ttl)
  {
    hide Later;
  }

  lemma LocalOther(rule: Rule, k: Key, cRule: Rule, s: Store, log: seq<Call>, c: Call)
    requires k != c.key && LocalOn(rule, s, log, k, c.now)
    requires !Loses(s, CheckStep(s, c.key, cRule, c.now).0, k)
    ensures LocalOn(rule, CheckStep(s, c.key, cRule, c.now).0, LogStep(log, c, cRule).0, k, c.now)
  {
    hide CheckStep, Prune, LogTimes;
    CheckOther(s, k, c.key, cRule, c.now);
    LogAppend(log, c, k, c.now - rule.window);
  }

  lemma RedisOther(rule: Rule, k: Key, cRule: Rule, db: Db, log: seq<Call>, c: Call, ttl: bool)
    requires k != c.key && RedisOn(rule, db, log, k, c.now, ttl)
    ensures RedisOn(rule, ScriptStep(db, c.key, cRule, c.now, c.member, ttl).0, LogStep(log, c, cRule).0, k, c.now, ttl)
  {
    hide ScriptStep, Later, Found, LogTimes, LogScores, Honest;
    ScriptOther(db, k, cRule, c, ttl);
    LogAppend(log, c, k, c.now - rule.window);
  }

  // ------------------------------------------------------------------ whole runs

  function ScriptRun(rules: Rules, db: Db, calls: seq<Call>, ttl: bool): seq<bool>
    decreases |calls|
  {
    if calls == [] then []
    else
      var c := calls[0];
      var (db', ok) := ScriptStep(db, c.key, rules(c.key), c.now, c.member, ttl);
      [ok] + ScriptRun(rules, db', calls[1..], ttl)
  }

  function LogRun(rules: Rules, log: seq<Call>, calls: seq<Call>): seq<bool>
    decreases |calls|
  {
    if calls == [] then []
    else
      var (log', ok) := LogStep(log, calls[0], rules(calls[0].key));
      [ok] + LogRun(rules, log', calls[1..])
  }

  /** The run never evicts a key from the local map. */
  ghost predicate NothingEvicted(rules: Rules, s: Store, calls: seq<Call>)
    decreases |calls|
  {
    calls == [] ||
    var s' := CheckStep(s, calls[0].key, rules(calls[0].key), calls[0].now).0;
    (forall k :: !Loses(s, s', k)) && NothingEvicted(rules, s', calls[1..])
  }

  ghost predicate LocalAgrees(rules: Rules, s: Store, log: seq<Call>, now: int) {
    forall k :: LocalOn(rules(k), s, log, k, now)
  }

  ghost predicate RedisAgrees(rules: Rules, db: Db, log: seq<Call>, now: int, ttl: bool) {
    forall k :: RedisOn(rules(k), db, log, k, now, ttl)
  }

  lemma LocalAgreeStep(rules: Rules, s: Store, log: seq<Call>, clock: int, c: Call)
    requires Positive(rules) && Legal(s) && clock <= c.now && LocalAgrees(rules, s, log, clock)
    requires forall k :: !Loses(s, CheckStep(s, c.key, rules(c.key), c.now).0, k)
    ensures CheckStep(s, c.key, rules(c.key), c.now).1 == LogStep(log, c, rules(c.key)).1
    ensures LocalAgrees(rules, CheckStep(s, c.key, rules(c.key), c.now).0, LogStep(log, c, rules(c.key)).0, c.now)
  {
    hide CheckStep, LogStep, LocalOn, WellOrdered, Loses;
    LocalLater(rules(c.key), s, log, c.key, clock, c.now);
    LocalAnswer(rules(c.key), s, log, c);
    var s', log' := CheckStep(s, c.key, rules(c.key), c.now).0, LogStep(log, c, rules(c.key)).0;
    forall k ensures LocalOn(rules(k), s', log', k, c.now) {
      LocalLater(rules(k), s, log, k, clock, c.now);
      if k == c.key {
        LocalSelf(rules(k), s, log, c);
      } else {
        LocalOther(rules(k), k, rules(c.key), s, log, c);
      }
    }
  }

  lemma RedisAgreeStep(rules: Rules, db: Db, log: seq<Call>, clock: int, c: Call, ttl: bool)
    requires Positive(rules) && DistinctMembers(log) && clock <= c.now && RedisAgrees(rules, db, log, clock, ttl)
    ensures ScriptStep(db, c.key, rules(c.key), c.now, c.member, ttl).1 == LogStep(log, c, rules(c.key)).1
    ensures RedisAgrees(rules, ScriptStep(db, c.key, rules(c.key), c.now, c.member, ttl).0,
                        LogStep(log, c, rules(c.key)).0, c.now, ttl)
  {
    hide ScriptStep, LogStep, RedisOn, DistinctMembers;
    RedisLater(rules(c.key), db, log, c.key, clock, c.now, ttl);
    RedisAnswer(rules(c.key), db, log, c, ttl);
    var db' := ScriptStep(db, c.key, rules(c.key), c.now, c.member, ttl).0;
    var log' := LogStep(log, c, rules(c.key)).0;
    forall k ensures RedisOn(rules(k), db', log', k, c.now, ttl) {
      RedisLater(rules(k), db, log, k, clock, c.now, ttl);
      if k == c.key {
        RedisSelf(rules(k), db, log, c, ttl);
      } else {
        RedisOther(rules(k), k, rules(c.key), db, log, c, ttl);
      }
    }
  }

  lemma RestOfRun(rules: Rules, calls: seq<Call>, clock: int)
    requires Positive(rules) && Monotone(calls, clock) && calls != []
    ensures rules(calls[0].key).limit >= 1 && clock <= calls[0].now && Monotone(calls[1..], calls[0].now)
  {}

  lemma {:induction false} LocalAgreeRun(rules: Rules, s: Store, log: seq<Call>, clock: int, calls: seq<Call>)
    requires Positive(rules) && Legal(s) && Monotone(calls, clock) && NothingEvicted(rules, s, calls)
    requires LocalAgrees(rules, s, log, clock)
    ensures Exec(rules, s, calls).1 == LogRun(rules, log, calls)
    decreases |calls|
  {
    hide CheckStep, LogStep, LocalAgrees, WellOrdered, Monotone, Positive, Loses;
    if calls != [] {
      var c := calls[0];
      RestOfRun(rules, calls, clock);
      LocalAgreeStep(rules, s, log, clock, c);
      CheckLegal(s, c.key, rules(c.key), c.now);
      LocalAgreeRun(rules, CheckStep(s, c.key, rules(c.key), c.now).0, LogStep(log, c, rules(c.key)).0, c.now,
                    calls[1..]);
    }
  }

  lemma {:induction false} RedisAgreeRun(rules: Rules, db: Db, log: seq<Call>, clock: int, calls: seq<Call>, ttl: bool)
    requires Positive(rules) && Monotone(calls, clock) && DistinctMembers(log + calls)
    requires RedisAgrees(rules, db, log, clock, ttl)
    ensures ScriptRun(rules, db, calls, ttl) == LogRun(rules, log, calls)
    decreases |calls|
  {
    hide ScriptStep, LogStep, RedisAgrees, DistinctMembers, Monotone, Positive;
    if calls != [] {
      var c := calls[0];
      LogPrefix(log, calls, rules(c.key));
      RestOfRun(rules, calls, clock);
      RedisAgreeStep(rules, db, log, clock, c, ttl);
      RedisAgreeRun(rules, ScriptStep(db, c.key, rules(c.key), c.now, c.member, ttl).0, LogStep(log, c, rules(c.key)).0,
                    c.now, calls[1..], ttl);
    }
  }

  lemma LogPrefix(log: seq<Call>, calls: seq<Call>, rule: Rule)
    requires DistinctMembers(log + calls) && calls != []
    ensures DistinctMembers(log)
    ensures DistinctMembers(LogStep(log, calls[0], rule).0 + calls[1..])
  {
    var all, log' := log + calls, LogStep(log, calls[0], rule).0;
    assert forall i :: 0 <= i < |log| ==> all[i] == log[i];
    if log' == log + [calls[0]] {
      assert log' + calls[1..] == all;
    } else {
      var shorter := log + calls[1..];
      assert log' == log;
      forall i, j | 0 <= i < j < |shorter| ensures shorter[i].member != shorter[j].member {
        assert shorter[i] == all[if i < |log| then i else i + 1];
        assert shorter[j] == all[if j < |log| then j else j + 1];
      }
    }
  }

  /** On any run with a clock that never goes back and distinct members, the Redis script
      answers every call as the exact log of admitted calls does, and as it would if keys never
      expired; and so does the local list, on every such run in which it evicts nothing. */
  lemma LimitersAgree(rules: Rules, calls: seq<Call>, start: int)
    requires Positive(rules) && Monotone(calls, start)
    ensures DistinctMembers(calls) ==> ScriptRun(rules, map[], calls, true) == LogRun(rules, [], calls)
    ensures DistinctMembers(calls) ==> ScriptRun(rules, map[], calls, false) == ScriptRun(rules, map[], calls, true)
    ensures NothingEvicted(rules, EMPTY, calls) ==> Exec(rules, EMPTY, calls).1 == LogRun(rules, [], calls)
  {
    assert [] + calls == calls;
    LaterOfNothing(0);
    if DistinctMembers(calls) {
      RedisAgreeRun(rules, map[], [], start, calls, true);
      RedisAgreeRun(rules, map[], [], start, calls, false);
    }
    if NothingEvicted(rules, EMPTY, calls) {
      LocalAgreeRun(rules, EMPTY, [], start, calls);
    }
  }

  // ------------------------------------------------------------------ runs without eviction

  ghost predicate KeysWithin(calls: seq<Call>, keys: set<Key>) {
    forall i :: 0 <= i < |calls| ==> calls[i].key in keys
  }

  /** With no more distinct keys than the cap, a check evicts nothing. */
  lemma NothingLost(s: Store, keys: set<Key>, key: Key, rule: Rule, now: int, k: Key)
    requires Legal(s) && rule.limit >= 1 && s.windows.Keys <= keys && |keys| <= MAX_KEYS && key in keys
    ensures !Loses(s, CheckStep(s, key, rule, now).0, k)
    ensures CheckStep(s, key, rule, now).0.windows.Keys <= keys
  {
    hide CheckStep, WellOrdered, Prune;
    var s' := CheckStep(s, key, rule, now).0;
    EvictionFires(s, key, rule, now);
    if key !in s.windows && |s.order| == MAX_KEYS {
      KeyCount(s);
      ProperSubset(s.windows.Keys, keys, key);
    }
    forall j | j in s'.windows ensures j in keys {
      if j != key {
        CheckOther(s, j, key, rule, now);
      }
    }
  }

  lemma {:induction false} ProperSubset<T>(a: set<T>, b: set<T>, x: T)
    requires a <= b && x in b && x !in a
    ensures |a| < |b|
  {
    if a == {} {
      assert |b| == |b - {x}| + 1;
    } else {
      var y :| y in a;
      ProperSubset(a - {y}, b - {y}, x);
    }
  }

  /** Any run on at most 10,000 distinct keys evicts nothing, so there all three agree. */
  lemma {:induction false} FewKeysEvictNothing(rules: Rules, s: Store, calls: seq<Call>, keys: set<Key>)
    requires Positive(rules) && Legal(s) && s.windows.Keys <= keys && |keys| <= MAX_KEYS && KeysWithin(calls, keys)
    ensures NothingEvicted(rules, s, calls)
    decreases |calls|
  {
    hide CheckStep, WellOrdered, Loses;
    if calls != [] {
      var c := calls[0];
      CheckLegal(s, c.key, rules(c.key), c.now);
      forall k ensures !Loses(s, CheckStep(s, c.key, rules(c.key), c.now).0, k) {
        NothingLost(s, keys, c.key, rules(c.key), c.now, k);
      }
      NothingLost(s, keys, c.key, rules(c.key), c.now, c.key);
      FewKeysEvictNothing(rules, CheckStep(s, c.key, rules(c.key), c.now).0, calls[1..], keys);
    }
  }

  // ------------------------------------------------------------------ bounds for the script

  function Scores(db: Db, key: Key): map<string, int> {
    if key in db then db[key].scores else map[]
  }

  /** Members of `key` scored later than `a`. */
  function LiveScores(db: Db, key: Key, a: int): nat {
    |Later(Scores(db, key), a)|
  }

  /** What the script keeps and still counts after `a` is everything stored after `a`. */
  lemma KeptSuffices(db: Db, key: Key, rule: Rule, now: int, a: int, ttl: bool)
    requires now - rule.window <= a && (key in db ==> Honest(db[key], rule, now))
    ensures Later(Later(Found(db, key, now, ttl), now - rule.window), a) == Later(Scores(db, key), a)
  {}

  lemma {:induction false} SubmapSize(small: map<string, int>, big: map<string, int>)
    requires small.Keys <= big.Keys
    ensures |small| <= |big|
  {
    SubsetSize(small.Keys, big.Keys);
  }

  lemma {:induction false} SubsetSize<T>(small: set<T>, big: set<T>)
    requires small <= big
    ensures |small| <= |big|
  {
    if small != {} {
      var x :| x in small;
      SubsetSize(small - {x}, big - {x});
    }
  }

  lemma LaterShrinks(scores: map<string, int>, s1: int, s2: int)
    ensures |Later(Later(scores, s1), s2)| <= |Later(scores, s2)|
    ensures |Later(Later(scores, s1), s2)| <= |Later(scores, s1)|
  {
    SubmapSize(Later(Later(scores, s1), s2), Later(scores, s2));
    SubmapSize(Later(Later(scores, s1), s2), Later(scores, s1));
  }

  lemma LaterInsert(scores: map<string, int>, member: string, now: int, a: int)
    requires member !in scores
    ensures |Later(scores[member := now], a)| == |Later(scores, a)| + (if now > a then 1 else 0)
  {
    if now > a {
      assert Later(scores[member := now], a) == Later(scores, a)[member := now];
    } else {
      assert Later(scores[member := now], a) == Later(scores, a);
    }
  }

  lemma ScriptEffect(db: Db, key: Key, rule: Rule, now: int, member: string, ttl: bool)
    ensures var (db', ok) := ScriptStep(db, key, rule, now, member, ttl);
            var kept := Later(Found(db, key, now, ttl), now - rule.window);
            && ok == (|kept| < rule.limit)
            && Scores(db', key) == (if ok then kept[member := now] else kept)
  {
    hide Later, Found;
  }

  lemma FreshInKept(db: Db, key: Key, start: int, now: int, member: string, ttl: bool)
    requires member !in Scores(db, key)
    ensures member !in Later(Found(db, key, now, ttl), start)
  {}

  lemma BoundedScript(db: Db, key: Key, rule: Rule, now: int, member: string, admits: nat, losses: nat, last: int,
                      a: int)
    requires rule.limit >= 1 && last <= now && member !in Scores(db, key)
    requires key in db ==> Honest(db[key], rule, now)
    requires Bounded(LiveScores(db, key, a), admits, losses, last, rule.limit, a, a + rule.window)
    ensures var (db', ok) := ScriptStep(db, key, rule, now, member, true);
            Bounded(LiveScores(db', key, a), admits + (if ok && a < now <= a + rule.window then 1 else 0), losses,
                    now, rule.limit, a, a + rule.window)
  {
    hide ScriptStep, Later, Found, Bounded, Honest;
    ScriptEffect(db, key, rule, now, member, true);
    var (db', ok) := ScriptStep(db, key, rule, now, member, true);
    var start, b := now - rule.window, a + rule.window;
    var kept := Later(Found(db, key, now, true), start);
    FreshInKept(db, key, start, now, member, true);
    LaterInsert(kept, member, now, a);
    if now <= b {
      KeptSuffices(db, key, rule, now, a, true);
      LaterShrinks(Found(db, key, now, true), start, a);
    }
    if ok {
      BoundedAdmit(LiveScores(db, key, a), LiveScores(db', key, a), admits, losses, last, now, rule.limit, a, b);
    } else {
      BoundedTick(LiveScores(db, key, a), LiveScores(db', key, a), admits, losses, last, now, rule.limit, a, b);
    }
  }

  // ------------------------------------------------------------------ Retry-After

  function ScriptLast(rules: Rules, db: Db, calls: seq<Call>): Db
    decreases |calls|
  {
    if calls == [] then db
    else
      var c := calls[0];
      ScriptLast(rules, ScriptStep(db, c.key, rules(c.key), c.now, c.member, true).0, calls[1..])
  }

  /** Admissions of `key` in (a, b] along a run of the script. */
  function ScriptAdmits(rules: Rules, db: Db, calls: seq<Call>, key: Key, a: int, b: int): nat
    decreases |calls|
  {
    if calls == [] then 0
    else
      var c := calls[0];
      var (db', ok) := ScriptStep(db, c.key, rules(c.key), c.now, c.member, true);
      (if ok && c.key == key && a < c.now <= b then 1 else 0) + ScriptAdmits(rules, db', calls[1..], key, a, b)
  }

  lemma InsertAddsOne(kept: map<string, int>, member: string, now: int, x: int)
    ensures |Later(kept[member := now], x)| <= |Later(kept, x)| + (if x < now then 1 else 0)
  {
    var next := kept[member := now];
    if x < now {
      assert Later(next, x).Keys <= Later(kept, x).Keys + {member};
      SubsetSize(Later(next, x).Keys, Later(kept, x).Keys + {member});
    } else {
      SubmapSize(Later(next, x), Later(kept, x));
    }
  }

  lemma KeptIsStored(db: Db, key: Key, start: int, now: int, x: int)
    ensures |Later(Later(Found(db, key, now, true), start), x)| <= LiveScores(db, key, x)
  {
    SubmapSize(Later(Later(Found(db, key, now, true), start), x), Later(Scores(db, key), x));
  }

  lemma HeldScript(db: Db, key: Key, c: Call, rule: Rule, x: int)
    ensures var (db', ok) := ScriptStep(db, c.key, rule, c.now, c.member, true);
            LiveScores(db', key, x) <= LiveScores(db, key, x) + (if ok && c.key == key && x < c.now then 1 else 0)
  {
    hide ScriptStep, Later, Found;
    if c.key == key {
      ScriptEffect(db, key, rule, c.now, c.member, true);
      KeptIsStored(db, key, c.now - rule.window, c.now, x);
      InsertAddsOne(Later(Found(db, key, c.now, true), c.now - rule.window), c.member, c.now, x);
    } else {
      ScriptOther(db, key, rule, c, true);
    }
  }

  lemma {:induction false} HeldByScript(rules: Rules, db: Db, calls: seq<Call>, key: Key, x: int, b: int)
    requires forall i :: 0 <= i < |calls| ==> calls[i].now <= b
    ensures LiveScores(ScriptLast(rules, db, calls), key, x)
            <= LiveScores(db, key, x) + ScriptAdmits(rules, db, calls, key, x, b)
    decreases |calls|
  {
    hide ScriptStep, Later;
    if calls != [] {
      var c := calls[0];
      HeldScript(db, key, c, rules(c.key), x);
      HeldByScript(rules, ScriptStep(db, c.key, rules(c.key), c.now, c.member, true).0, calls[1..], key, x, b);
    }
  }

  lemma {:induction false} NothingRecentInScript(rules: Rules, db: Db, calls: seq<Call>, key: Key, x: int, b: int)
    requires forall i :: 0 <= i < |calls| ==> calls[i].now <= x
    ensures ScriptAdmits(rules, db, calls, key, x, b) == 0
    decreases |calls|
  {
    hide ScriptStep;
    if calls != [] {
      var c := calls[0];
      NothingRecentInScript(rules, ScriptStep(db, c.key, rules(c.key), c.now, c.member, true).0, calls[1..], key, x, b);
    }
  }

  /** Retry-After is sufficient against Redis too. */
  lemma RetryPassesRedis(rules: Rules, calls: seq<Call>, key: Key, t0: int, between: seq<Call>, t1: int, member: string)
    requires Positive(rules) && t1 >= t0 + rules(key).window
    requires forall i :: 0 <= i < |calls| ==> calls[i].now <= t0
    requires forall i :: 0 <= i < |between| ==> t0 <= between[i].now <= t1
    requires ScriptAdmits(rules, ScriptLast(rules, map[], calls), between, key, t1 - rules(key).window, t1) == 0
    ensures ScriptStep(ScriptLast(rules, ScriptLast(rules, map[], calls), between), key, rules(key), t1, member, true).1
  {
    hide ScriptStep, ScriptLast, ScriptAdmits;
    var x, db := t1 - rules(key).window, ScriptLast(rules, map[], calls);
    LaterOfNothing(x);
    HeldByScript(rules, map[], calls, key, x, t1);
    NothingRecentInScript(rules, map[], calls, key, x, t1);
    HeldByScript(rules, db, between, key, x, t1);
    var last := ScriptLast(rules, db, between);
    ScriptEffect(last, key, rules(key), t1, member, true);
    SubmapSize(Later(Found(last, key, t1, true), x), Later(Scores(last, key), x));
  }
}
