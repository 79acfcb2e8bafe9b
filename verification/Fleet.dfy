/** Several API processes in front of one Redis.  Every request walks its chain of tiers
    against Redis; when a Redis call fails it walks the whole chain again, from the first
    tier, on the fallback map of its own process.  Requests of all processes interleave
    between any two checks; Redis may fail, lose a reply, or forget keys, and a process may
    restart with an empty map, at any moment. */
module Fleet {
  import opened SlidingWindow
  import opened LocalFallback
  import opened RedisWindow

  datatype Backend = Shared | Process(id: nat)

  /** Lost: the process restarted before it answered. */
  datatype Verdict = Pending | Rejected | Forwarded | Lost

  /** `passed[i]` is when `chain[i]` admitted the request, in its current walk. */
  datatype Request = Request(process: nat, chain: seq<Key>, onRedis: bool, passed: seq<int>, verdict: Verdict)

  /** History: one entry per admission of any backend, and per loss of keys. */
  datatype Entry = Entry(backend: Backend, key: Key, time: int, request: nat)
  datatype Loss = Loss(backend: Backend, keys: set<Key>, time: int)

  datatype Fleet = Fleet(clock: int, db: Db, locals: seq<Store>, requests: map<nat, Request>,
                         admissions: seq<Entry>, losses: seq<Loss>)

  datatype Event =
    | Arrive(id: nat, process: nat, chain: seq<Key>, redisReady: bool)
    | AskRedis(id: nat, now: int, member: string, outcome: Outcome)
    | AskLocal(id: nat, now: int)
    | RedisForgets(keys: set<Key>, now: int)
    | Restart(process: nat, now: int)

  function Start(processes: nat, clock: int): Fleet {
    Fleet(clock, map[], seq(processes, _ => EMPTY), map[], [], [])
  }

  // ------------------------------------------------------------------ steps

  predicate Walking(f: Fleet, id: nat, onRedis: bool) {
    && id in f.requests
    && var r := f.requests[id];
    && r.verdict == Pending && r.onRedis == onRedis && |r.passed| < |r.chain|
  }

  function NextKey(f: Fleet, id: nat, onRedis: bool): Key
    requires Walking(f, id, onRedis)
  {
    f.requests[id].chain[|f.requests[id].passed|]
  }

  predicate Enabled(f: Fleet, e: Event) {
    match e
    case Arrive(id, process, chain, _) => id !in f.requests && process < |f.locals|
    case AskRedis(id, now, member, _) =>
      Walking(f, id, true) && f.clock <= now && member !in Scores(f.db, NextKey(f, id, true))
    case AskLocal(id, now) => Walking(f, id, false) && f.clock <= now && f.requests[id].process < |f.locals|
    case RedisForgets(_, now) => f.clock <= now
    case Restart(process, now) => process < |f.locals| && f.clock <= now
  }

  /** The request after one tier answered `ok` at `now`. */
  function Answer(r: Request, now: int, ok: bool): Request {
    if !ok then r.(verdict := Rejected)
    else r.(passed := r.passed + [now], verdict := if |r.passed| + 1 == |r.chain| then Forwarded else Pending)
  }

  /** The requests once a process has restarted. */
  function Abandoned(requests: map<nat, Request>, process: nat): map<nat, Request> {
    map id | id in requests ::
      var r := requests[id];
      if r.process == process && r.verdict == Pending then r.(verdict := Lost) else r
  }

  function Step(rules: Rules, f: Fleet, e: Event): Fleet
    requires Enabled(f, e)
  {
    match e
    case Arrive(id, process, chain, redisReady) =>
      f.(requests := f.requests[id := Request(process, chain, redisReady, [],
                                              if chain == [] then Forwarded else Pending)])
    case AskRedis(id, now, member, outcome) =>
      var r, key := f.requests[id], NextKey(f, id, true);
      var (db', ok) := ScriptStep(f.db, key, rules(key), now, member, true);
      var ran := outcome != NotRun;
      f.(clock := now,
         db := if ran then db' else f.db,
         requests := f.requests[id := if outcome == Answered then Answer(r, now, ok)
                                else r.(onRedis := false, passed := [])],
         admissions := f.admissions + if ran && ok then [Entry(Shared, key, now, id)] else [])
    case AskLocal(id, now) =>
      var r, key := f.requests[id], NextKey(f, id, false);
      var store := f.locals[r.process];
      var (store', ok) := CheckStep(store, key, rules(key), now);
      f.(clock := now,
         locals := f.locals[r.process := store'],
         requests := f.requests[id := Answer(r, now, ok)],
         admissions := f.admissions + if ok then [Entry(Process(r.process), key, now, id)] else [],
         losses := f.losses + [Loss(Process(r.process), store.windows.Keys - store'.windows.Keys, now)])
    case RedisForgets(keys, now) =>
      f.(clock := now, db := f.db - keys, losses := f.losses + [Loss(Shared, keys, now)])
    case Restart(process, now) =>
      f.(clock := now,
         locals := f.locals[process := EMPTY],
         requests := Abandoned(f.requests, process),
         losses := f.losses + [Loss(Process(process), f.locals[process].windows.Keys, now)])
  }

  predicate Runs(rules: Rules, f: Fleet, events: seq<Event>)
    decreases |events|
  {
    events == [] || (Enabled(f, events[0]) && Runs(rules, Step(rules, f, events[0]), events[1..]))
  }

  function After(rules: Rules, f: Fleet, events: seq<Event>): Fleet
    requires Runs(rules, f, events)
    decreases |events|
  {
    if events == [] then f else After(rules, Step(rules, f, events[0]), events[1..])
  }

  // ------------------------------------------------------------------ what is counted

  function AdmitCount(log: seq<Entry>, b: Backend, k: Key, a: int, z: int): nat {
    if log == [] then 0
    else
      var e := log[|log| - 1];
      AdmitCount(log[..|log| - 1], b, k, a, z) + (if e.backend == b && e.key == k && a < e.time <= z then 1 else 0)
  }

  function LossCount(log: seq<Loss>, b: Backend, k: Key, a: int, z: int): nat {
    if log == [] then 0
    else
      var e := log[|log| - 1];
      LossCount(log[..|log| - 1], b, k, a, z) + (if e.backend == b && k in e.keys && a < e.time <= z then 1 else 0)
  }

  /** Losses of `k` in (a, z], whichever backend lost it. */
  function AllLosses(log: seq<Loss>, k: Key, a: int, z: int): nat {
    if log == [] then 0
    else
      var e := log[|log| - 1];
      AllLosses(log[..|log| - 1], k, a, z) + (if k in e.keys && a < e.time <= z then 1 else 0)
  }

  function BackendOf(r: Request): Backend {
    if r.onRedis then Shared else Process(r.process)
  }

  /** The request passed a check of `k` in (a, z], in the walk that decides it. */
  ghost predicate PassedIn(r: Request, k: Key, a: int, z: int) {
    exists j :: 0 <= j < |r.passed| && j < |r.chain| && r.chain[j] == k && a < r.passed[j] <= z
  }

  /** The requests that passed `k` in (a, z] on the word of backend `b`. */
  ghost function Passers(f: Fleet, b: Backend, k: Key, a: int, z: int): set<nat> {
    set id | id in f.requests && BackendOf(f.requests[id]) == b && PassedIn(f.requests[id], k, a, z)
  }

  ghost function AllPassers(f: Fleet, k: Key, a: int, z: int): set<nat> {
    set id | id in f.requests && PassedIn(f.requests[id], k, a, z)
  }

  // ------------------------------------------------------------------ invariant

  function LiveAt(f: Fleet, b: Backend, k: Key, a: int): nat {
    match b
    case Shared => LiveScores(f.db, k, a)
    case Process(p) => if p < |f.locals| then Live(f.locals[p], k, a) else 0
  }

  /** The shared counting invariant, for one backend, key and window. */
  ghost predicate Counted(rules: Rules, f: Fleet, b: Backend, k: Key, a: int) {
    var z := a + rules(k).window;
    && rules(k).limit >= 1
    && Bounded(LiveAt(f, b, k, a), AdmitCount(f.admissions, b, k, a, z), LossCount(f.losses, b, k, a, z),
               f.clock, rules(k).limit, a, z)
  }

  ghost predicate StoresOk(rules: Rules, f: Fleet) {
    && (forall k :: k in f.db ==> Honest(f.db[k], rules(k), f.clock))
    && (forall p :: 0 <= p < |f.locals| ==> Legal(f.locals[p]))
  }

  /** Every check a request counts as passed is an admission of the backend it relies on. */
  ghost predicate Backed(f: Fleet, id: nat) {
    id in f.requests ==>
      var r := f.requests[id];
      && r.process < |f.locals|
      && |r.passed| <= |r.chain|
      && forall j :: 0 <= j < |r.passed| ==> Entry(BackendOf(r), r.chain[j], r.passed[j], id) in f.admissions
  }

  ghost predicate Inv(rules: Rules, f: Fleet) {
    && StoresOk(rules, f)
    && (forall b, k, a :: Counted(rules, f, b, k, a))
    && (forall id :: Backed(f, id))
  }

  // ------------------------------------------------------------------ preservation

  lemma AdmitAppend(log: seq<Entry>, e: Entry, b: Backend, k: Key, a: int, z: int)
    ensures AdmitCount(log + [e], b, k, a, z)
            == AdmitCount(log, b, k, a, z) + (if e.backend == b && e.key == k && a < e.time <= z then 1 else 0)
  {
    assert (log + [e])[..|log|] == log;
  }

  lemma LossAppend(log: seq<Loss>, e: Loss, b: Backend, k: Key, a: int, z: int)
    ensures LossCount(log + [e], b, k, a, z)
            == LossCount(log, b, k, a, z) + (if e.backend == b && k in e.keys && a < e.time <= z then 1 else 0)
  {
    assert (log + [e])[..|log|] == log;
  }

  /** A step that does not touch what `b` holds of `k`. */
  lemma CountedTick(rules: Rules, f: Fleet, f': Fleet, b: Backend, k: Key, a: int)
    requires Counted(rules, f, b, k, a) && f.clock <= f'.clock
    requires LiveAt(f', b, k, a) == LiveAt(f, b, k, a)
    requires var z := a + rules(k).window;
             && AdmitCount(f'.admissions, b, k, a, z) == AdmitCount(f.admissions, b, k, a, z)
             && LossCount(f'.losses, b, k, a, z) == LossCount(f.losses, b, k, a, z)
    ensures Counted(rules, f', b, k, a)
  {
    hide LiveAt, AdmitCount, LossCount, Bounded;
    var z := a + rules(k).window;
    BoundedTick(LiveAt(f, b, k, a), LiveAt(f', b, k, a), AdmitCount(f.admissions, b, k, a, z),
                LossCount(f.losses, b, k, a, z), f.clock, f'.clock, rules(k).limit, a, z);
  }

  lemma ForgottenScores(db: Db, keys: set<Key>, k: Key)
    ensures Scores(db - keys, k) == if k in keys then map[] else Scores(db, k)
  {}

  lemma ForgetStep(rules: Rules, f: Fleet, e: Event)
    requires e.RedisForgets? && Enabled(f, e)
    ensures var f' := Step(rules, f, e);
            && f.clock <= f'.clock == e.now && f'.db == f.db - e.keys && f'.locals == f.locals
            && f'.admissions == f.admissions && f'.losses == f.losses + [Loss(Shared, e.keys, e.now)]
  {}

  lemma ForgetCounted(rules: Rules, f: Fleet, e: Event, b: Backend, k: Key, a: int)
    requires e.RedisForgets? && Enabled(f, e) && Counted(rules, f, b, k, a)
    ensures Counted(rules, Step(rules, f, e), b, k, a)
  {
    hide Step, Enabled, AdmitCount, LossCount, LiveAt, Counted;
    ForgetStep(rules, f, e);
    var f', z := Step(rules, f, e), a + rules(k).window;
    LossAppend(f.losses, Loss(Shared, e.keys, e.now), b, k, a, z);
    LiveForgotten(f, f', e.keys, b, k, a);
    if b == Shared && k in e.keys {
      CountedLoss(rules, f, f', b, k, a);
    } else {
      CountedTick(rules, f, f', b, k, a);
    }
  }

  lemma LiveForgotten(f: Fleet, f': Fleet, keys: set<Key>, b: Backend, k: Key, a: int)
    requires f'.db == f.db - keys && f'.locals == f.locals
    ensures LiveAt(f', b, k, a) == if b == Shared && k in keys then 0 else LiveAt(f, b, k, a)
  {
    hide Scores, Live, Later;
    ForgottenScores(f.db, keys, k);
    LaterOfNothing(a);
  }

  lemma RestartStep(rules: Rules, f: Fleet, e: Event)
    requires e.Restart? && Enabled(f, e)
    ensures var f', p := Step(rules, f, e), e.process;
            && f.clock <= f'.clock == e.now && f'.db == f.db && f'.locals == f.locals[p := EMPTY]
            && f'.admissions == f.admissions
            && f'.losses == f.losses + [Loss(Process(p), f.locals[p].windows.Keys, e.now)]
  {}

  /** A restart loses exactly the undecided requests of its own process. */
  lemma RestartLoses(rules: Rules, f: Fleet, e: Event, id: nat)
    requires e.Restart? && Enabled(f, e) && id in f.requests
    ensures var f', r := Step(rules, f, e), f.requests[id];
            && id in f'.requests
            && (r.process == e.process && r.verdict == Pending ==> f'.requests[id] == r.(verdict := Lost))
            && (r.process != e.process ==> f'.requests[id] == r)
    ensures !Walking(Step(rules, f, e), id, true) || f.requests[id].process != e.process
    ensures !Walking(Step(rules, f, e), id, false) || f.requests[id].process != e.process
  {}

  /** A verdict is final, whatever happens afterwards. */
  lemma {:induction false} VerdictsAreFinal(rules: Rules, f: Fleet, events: seq<Event>, id: nat)
    requires Runs(rules, f, events) && id in f.requests && f.requests[id].verdict != Pending
    ensures id in After(rules, f, events).requests && After(rules, f, events).requests[id] == f.requests[id]
    decreases |events|
  {
    hide ScriptStep, CheckStep, Scores;
    if events != [] {
      VerdictsAreFinal(rules, Step(rules, f, events[0]), events[1..], id);
    }
  }

  lemma LiveRestarted(f: Fleet, f': Fleet, p: nat, b: Backend, k: Key, a: int)
    requires p < |f.locals| && f'.db == f.db && f'.locals == f.locals[p := EMPTY]
    ensures LiveAt(f', b, k, a) == if b == Process(p) then 0 else LiveAt(f, b, k, a)
    ensures b == Process(p) && k !in f.locals[p].windows ==> LiveAt(f, b, k, a) == 0
  {
    LaterOfNothing(a);
  }

  lemma RestartCounted(rules: Rules, f: Fleet, e: Event, b: Backend, k: Key, a: int)
    requires e.Restart? && Enabled(f, e) && Counted(rules, f, b, k, a)
    ensures Counted(rules, Step(rules, f, e), b, k, a)
  {
    RestartStep(rules, f, e);
    var f', z, p := Step(rules, f, e), a + rules(k).window, e.process;
    LiveRestarted(f, f', p, b, k, a);
    LossAppend(f.losses, Loss(Process(p), f.locals[p].windows.Keys, e.now), b, k, a, z);
    hide Step, AdmitCount, LossCount, LiveAt, Counted;
    if b == Process(p) && k in f.locals[p].windows {
      CountedLoss(rules, f, f', b, k, a);
    } else {
      CountedTick(rules, f, f', b, k, a);
    }
  }

  /** A step in which `b` forgets `k`. */
  lemma CountedLoss(rules: Rules, f: Fleet, f': Fleet, b: Backend, k: Key, a: int)
    requires Counted(rules, f, b, k, a) && f.clock <= f'.clock && LiveAt(f', b, k, a) == 0
    requires var z := a + rules(k).window;
             && AdmitCount(f'.admissions, b, k, a, z) == AdmitCount(f.admissions, b, k, a, z)
             && LossCount(f'.losses, b, k, a, z)
                == LossCount(f.losses, b, k, a, z) + (if a < f'.clock <= z then 1 else 0)
    ensures Counted(rules, f', b, k, a)
  {
    hide LiveAt, AdmitCount, LossCount, Bounded;
    var z := a + rules(k).window;
    BoundedLose(LiveAt(f, b, k, a), AdmitCount(f.admissions, b, k, a, z), LossCount(f.losses, b, k, a, z),
                f.clock, f'.clock, rules(k).limit, a, z);
  }

  lemma RedisCounted(rules: Rules, f: Fleet, e: Event, b: Backend, k: Key, a: int)
    requires Positive(rules) && e.AskRedis? && Enabled(f, e) && StoresOk(rules, f) && Counted(rules, f, b, k, a)
    ensures Counted(rules, Step(rules, f, e), b, k, a)
  {
    hide ScriptStep, AdmitCount, LossCount, Bounded, Honest, Scores, WellOrdered;
    var f', z, key := Step(rules, f, e), a + rules(k).window, NextKey(f, e.id, true);
    AdmitAppend(f.admissions, Entry(Shared, key, e.now, e.id), b, k, a, z);
    assert f.admissions + [] == f.admissions;
    if b == Shared && e.outcome != NotRun {
      if k == key {
        assert key in f.db ==> Honest(f.db[key], rules(key), e.now)
            by { HonestLater(f.db, key, rules(key), f.clock, e.now); }
        BoundedScript(f.db, key, rules(key), e.now, e.member, AdmitCount(f.admissions, b, k, a, z),
                      LossCount(f.losses, b, k, a, z), f.clock, a);
      } else {
        ScriptOther(f.db, k, rules(key), Call(key, e.now, e.member), true);
        SameScores(f.db, f'.db, k);
        CountedTick(rules, f, f', b, k, a);
      }
    } else {
      CountedTick(rules, f, f', b, k, a);
    }
  }

  lemma SameScores(db: Db, db': Db, k: Key)
    requires (k in db' <==> k in db) && (k in db ==> db'[k] == db[k])
    ensures Scores(db', k) == Scores(db, k)
  {}

  lemma HonestLater(db: Db, key: Key, rule: Rule, clock: int, now: int)
    requires clock <= now && (key in db ==> Honest(db[key], rule, clock))
    ensures key in db ==> Honest(db[key], rule, now)
  {}

  lemma LocalCounted(rules: Rules, f: Fleet, e: Event, b: Backend, k: Key, a: int)
    requires Positive(rules) && e.AskLocal? && Enabled(f, e) && StoresOk(rules, f) && Counted(rules, f, b, k, a)
    ensures Counted(rules, Step(rules, f, e), b, k, a)
  {
    hide CheckStep, AdmitCount, LossCount, Bounded, WellOrdered, Honest;
    var f', z, key := Step(rules, f, e), a + rules(k).window, NextKey(f, e.id, false);
    var p := f.requests[e.id].process;
    var (store', ok) := CheckStep(f.locals[p], key, rules(key), e.now);
    var gone := Loss(Process(p), f.locals[p].windows.Keys - store'.windows.Keys, e.now);
    AdmitAppend(f.admissions, Entry(Process(p), key, e.now, e.id), b, k, a, z);
    LossAppend(f.losses, gone, b, k, a, z);
    assert f.admissions + [] == f.admissions;
    if b == Process(p) {
      assert k in gone.keys <==> Loses(f.locals[p], store', k);
      BoundedStep(rules, f.locals[p], Call(key, e.now, ""), k, AdmitCount(f.admissions, b, k, a, z),
                  LossCount(f.losses, b, k, a, z), f.clock, a);
    } else {
      CountedTick(rules, f, f', b, k, a);
    }
  }

  lemma StepCounted(rules: Rules, f: Fleet, e: Event, b: Backend, k: Key, a: int)
    requires Positive(rules) && Enabled(f, e) && StoresOk(rules, f) && Counted(rules, f, b, k, a)
    ensures Counted(rules, Step(rules, f, e), b, k, a)
  {
    hide Counted, StoresOk;
    match e
    case Arrive(_, _, _, _) => ArriveCounted(rules, f, e, b, k, a);
    case AskRedis(_, _, _, _) => RedisCounted(rules, f, e, b, k, a);
    case AskLocal(_, _) => LocalCounted(rules, f, e, b, k, a);
    case RedisForgets(_, _) => ForgetCounted(rules, f, e, b, k, a);
    case Restart(_, _) => RestartCounted(rules, f, e, b, k, a);
  }

  lemma ArriveCounted(rules: Rules, f: Fleet, e: Event, b: Backend, k: Key, a: int)
    requires e.Arrive? && Enabled(f, e) && Counted(rules, f, b, k, a)
    ensures Counted(rules, Step(rules, f, e), b, k, a)
  {
    CountedTick(rules, f, Step(rules, f, e), b, k, a);
  }

  lemma StepStores(rules: Rules, f: Fleet, e: Event)
    requires Positive(rules) && Enabled(f, e) && StoresOk(rules, f)
    ensures StoresOk(rules, Step(rules, f, e))
    ensures |Step(rules, f, e).locals| == |f.locals|
  {
    hide CheckStep, ScriptStep, WellOrdered, Honest;
    var f' := Step(rules, f, e);
    match e
    case Arrive(_, _, _, _) =>
    case AskRedis(id, now, member, outcome) =>
      var key := NextKey(f, id, true);
      forall k | k in f'.db ensures Honest(f'.db[k], rules(k), now) {
        HonestLater(f.db, k, rules(k), f.clock, now);
        if outcome != NotRun {
          if k == key {
            ScriptHonest(f.db, rules(k), Call(key, now, member), true);
          } else {
            ScriptOther(f.db, k, rules(key), Call(key, now, member), true);
          }
        }
      }
    case AskLocal(id, now) =>
      var key, p := NextKey(f, id, false), f.requests[id].process;
      CheckLegal(f.locals[p], key, rules(key), now);
      forall k | k in f'.db ensures Honest(f'.db[k], rules(k), now) {
        HonestLater(f.db, k, rules(k), f.clock, now);
      }
    case RedisForgets(_, now) =>
      forall k | k in f'.db ensures Honest(f'.db[k], rules(k), now) {
        HonestLater(f.db, k, rules(k), f.clock, now);
      }
    case Restart(_, now) =>
      forall k | k in f'.db ensures Honest(f'.db[k], rules(k), now) {
        HonestLater(f.db, k, rules(k), f.clock, now);
      }
      EmptyIsLegal();
  }

  lemma StepBacked(rules: Rules, f: Fleet, e: Event, id: nat)
    requires Enabled(f, e) && Backed(f, id)
    ensures Backed(Step(rules, f, e), id)
  {
    hide CheckStep, ScriptStep, Scores;
    var f' := Step(rules, f, e);
    assert forall x :: x in f.admissions ==> x in f'.admissions;
    if id in f'.requests && id in f.requests && f'.requests[id] != f.requests[id] {
      var r, r' := f.requests[id], f'.requests[id];
      if |r'.passed| == |r.passed| + 1 {
        assert Entry(BackendOf(r'), r'.chain[|r.passed|], r'.passed[|r.passed|], id) in f'.admissions;
      }
    }
  }

  lemma StepInv(rules: Rules, f: Fleet, e: Event)
    requires Positive(rules) && Enabled(f, e) && Inv(rules, f)
    ensures Inv(rules, Step(rules, f, e))
    ensures |Step(rules, f, e).locals| == |f.locals|
  {
    hide Step, Enabled, Counted, StoresOk, Backed;
    StepStores(rules, f, e);
    var f' := Step(rules, f, e);
    forall b, k, a ensures Counted(rules, f', b, k, a) {
      StepCounted(rules, f, e, b, k, a);
    }
    forall id ensures Backed(f', id) {
      StepBacked(rules, f, e, id);
    }
  }

  lemma StartInv(rules: Rules, processes: nat, clock: int)
    requires Positive(rules)
    ensures Inv(rules, Start(processes, clock))
  {
    var f := Start(processes, clock);
    forall b, k, a ensures Counted(rules, f, b, k, a) {
      LaterOfNothing(a);
      assert LiveAt(f, b, k, a) == 0;
      BoundedStart(rules(k).limit, clock, a, a + rules(k).window);
    }
  }

  lemma {:induction false} RunInv(rules: Rules, f: Fleet, events: seq<Event>)
    requires Positive(rules) && Inv(rules, f) && Runs(rules, f, events)
    ensures Inv(rules, After(rules, f, events))
    ensures |After(rules, f, events).locals| == |f.locals|
    decreases |events|
  {
    hide Inv, Enabled, Step;
    if events != [] {
      StepInv(rules, f, events[0]);
      RunInv(rules, Step(rules, f, events[0]), events[1..]);
    }
  }

  // ------------------------------------------------------------------ the bound

  /** The requests named by the admissions of `b` for `k` in (a, z]. */
  function Named(log: seq<Entry>, b: Backend, k: Key, a: int, z: int): set<nat> {
    if log == [] then {}
    else
      var e := log[|log| - 1];
      var earlier := Named(log[..|log| - 1], b, k, a, z);
      if e.backend == b && e.key == k && a < e.time <= z then earlier + {e.request} else earlier
  }

  lemma {:induction false} NamedCount(log: seq<Entry>, b: Backend, k: Key, a: int, z: int)
    ensures |Named(log, b, k, a, z)| <= AdmitCount(log, b, k, a, z)
  {
    if log != [] {
      NamedCount(log[..|log| - 1], b, k, a, z);
    }
  }

  lemma {:induction false} NamedHas(log: seq<Entry>, e: Entry, a: int, z: int)
    requires e in log && a < e.time <= z
    ensures e.request in Named(log, e.backend, e.key, a, z)
  {
    var n := |log| - 1;
    if log[n] != e {
      assert log == log[..n] + [log[n]];
      NamedHas(log[..n], e, a, z);
    }
  }

  lemma PasserIsNamed(f: Fleet, b: Backend, k: Key, a: int, z: int, id: nat)
    requires Backed(f, id) && id in Passers(f, b, k, a, z)
    ensures id in Named(f.admissions, b, k, a, z)
  {
    hide Named;
    var r := f.requests[id];
    var j :| 0 <= j < |r.passed| && j < |r.chain| && r.chain[j] == k && a < r.passed[j] <= z;
    NamedHas(f.admissions, Entry(b, k, r.passed[j], id), a, z);
  }

  lemma BackendQuota(rules: Rules, f: Fleet, b: Backend, k: Key, a: int)
    requires Inv(rules, f) && Positive(rules)
    ensures var z := a + rules(k).window;
            |Passers(f, b, k, a, z)| <= Quotas(rules(k).limit, 1 + LossCount(f.losses, b, k, a, z))
  {
    hide Passers, Named, Backed, AdmitCount, LossCount, Quotas, StoresOk;
    var z := a + rules(k).window;
    var ids := Passers(f, b, k, a, z);
    forall id | id in ids ensures id in Named(f.admissions, b, k, a, z) {
      assert Backed(f, id);
      PasserIsNamed(f, b, k, a, z, id);
    }
    SubsetSize(ids, Named(f.admissions, b, k, a, z));
    NamedCount(f.admissions, b, k, a, z);
    assert Counted(rules, f, b, k, a);
  }

  /** In any window of length W, one backend lets at most (1 + its losses) * L requests past. */
  lemma BackendBound(rules: Rules, f: Fleet, b: Backend, k: Key, a: int)
    requires Inv(rules, f) && Positive(rules)
    ensures var z := a + rules(k).window;
            |Passers(f, b, k, a, z)| <= (1 + LossCount(f.losses, b, k, a, z)) * rules(k).limit
  {
    hide Passers, Inv, LossCount, Quotas;
    BackendQuota(rules, f, b, k, a);
    QuotasAreProducts(rules(k).limit, 1 + LossCount(f.losses, b, k, a, a + rules(k).window));
  }

  /** Passers by the first `n` processes. */
  ghost function LocalPassers(f: Fleet, n: nat, k: Key, a: int, z: int): set<nat> {
    if n == 0 then {} else LocalPassers(f, n - 1, k, a, z) + Passers(f, Process(n - 1), k, a, z)
  }

  function LocalLosses(log: seq<Loss>, n: nat, k: Key, a: int, z: int): nat {
    if n == 0 then 0 else LocalLosses(log, n - 1, k, a, z) + LossCount(log, Process(n - 1), k, a, z)
  }

  lemma {:induction false} LocalBound(rules: Rules, f: Fleet, n: nat, k: Key, a: int)
    requires Inv(rules, f) && Positive(rules)
    ensures var z := a + rules(k).window;
            |LocalPassers(f, n, k, a, z)| <= Quotas(rules(k).limit, n + LocalLosses(f.losses, n, k, a, z))
  {
    hide Passers, Inv, LossCount, Quotas;
    if n > 0 {
      var z := a + rules(k).window;
      LocalBound(rules, f, n - 1, k, a);
      BackendQuota(rules, f, Process(n - 1), k, a);
      var x, y := LocalLosses(f.losses, n - 1, k, a, z), LossCount(f.losses, Process(n - 1), k, a, z);
      QuotasAdd(rules(k).limit, n - 1 + x, 1 + y);
    }
  }

  lemma {:induction false} LocalPassersHas(f: Fleet, n: nat, k: Key, a: int, z: int, id: nat, p: nat)
    requires p < n && id in Passers(f, Process(p), k, a, z)
    ensures id in LocalPassers(f, n, k, a, z)
  {
    if p < n - 1 {
      LocalPassersHas(f, n - 1, k, a, z, id, p);
    }
  }

  lemma {:induction false} LossesPartition(log: seq<Loss>, n: nat, k: Key, a: int, z: int)
    ensures LossCount(log, Shared, k, a, z) + LocalLosses(log, n, k, a, z) <= AllLosses(log, k, a, z)
    ensures (forall i :: 0 <= i < |log| && log[i].backend.Process? ==> log[i].backend.id < n) ==>
              LossCount(log, Shared, k, a, z) + LocalLosses(log, n, k, a, z) == AllLosses(log, k, a, z)
  {
    if log == [] {
      NoLocalLosses(n, k, a, z);
    } else {
      var m := |log| - 1;
      LossesPartition(log[..m], n, k, a, z);
      LastLoss(log, n, k, a, z);
    }
  }

  lemma {:induction false} NoLocalLosses(n: nat, k: Key, a: int, z: int)
    ensures LocalLosses([], n, k, a, z) == 0
  {
    if n > 0 {
      NoLocalLosses(n - 1, k, a, z);
    }
  }

  lemma {:induction false} LastLoss(log: seq<Loss>, n: nat, k: Key, a: int, z: int)
    requires log != []
    ensures var e := log[|log| - 1];
            LocalLosses(log, n, k, a, z)
            == LocalLosses(log[..|log| - 1], n, k, a, z)
               + (if e.backend.Process? && e.backend.id < n && k in e.keys && a < e.time <= z then 1 else 0)
  {
    if n > 0 {
      LastLoss(log, n - 1, k, a, z);
    }
  }

  /** Over every run of P processes, whatever Redis does and whenever it fails, the requests
      that pass a tier of limit L in any window of its length number at most
      (P + 1 + losses) * L: L on the word of Redis, L on the word of each process's own map,
      and L more for each time a backend lost that key inside the window. */
  lemma FleetBound(rules: Rules, processes: nat, clock: int, events: seq<Event>, k: Key, a: int)
    requires Positive(rules) && Runs(rules, Start(processes, clock), events)
    ensures var f := After(rules, Start(processes, clock), events);
            var z := a + rules(k).window;
            |AllPassers(f, k, a, z)| <= (processes + 1 + AllLosses(f.losses, k, a, z)) * rules(k).limit
  {
    hide Inv, Runs, After;
    StartInv(rules, processes, clock);
    RunInv(rules, Start(processes, clock), events);
    FleetBoundAt(rules, After(rules, Start(processes, clock), events), k, a);
  }

  lemma PasserIsSomewhere(f: Fleet, k: Key, a: int, z: int, id: nat)
    requires Backed(f, id) && id in AllPassers(f, k, a, z)
    ensures id in Passers(f, Shared, k, a, z) || id in LocalPassers(f, |f.locals|, k, a, z)
  {
    hide LocalPassers;
    if !f.requests[id].onRedis {
      LocalPassersHas(f, |f.locals|, k, a, z, id, f.requests[id].process);
    }
  }

  lemma FleetBoundAt(rules: Rules, f: Fleet, k: Key, a: int)
    requires Positive(rules) && Inv(rules, f)
    ensures var z := a + rules(k).window;
            |AllPassers(f, k, a, z)| <= (|f.locals| + 1 + AllLosses(f.losses, k, a, z)) * rules(k).limit
  {
    hide AllPassers, Passers, LocalPassers, Counted, Backed, LossCount, LocalLosses, AllLosses, Quotas, StoresOk;
    var z, n, limit := a + rules(k).window, |f.locals|, rules(k).limit;
    BackendQuota(rules, f, Shared, k, a);
    LocalBound(rules, f, n, k, a);
    LossesPartition(f.losses, n, k, a, z);
    var shared, local := Passers(f, Shared, k, a, z), LocalPassers(f, n, k, a, z);
    forall id | id in AllPassers(f, k, a, z) ensures id in shared + local {
      assert Backed(f, id);
      PasserIsSomewhere(f, k, a, z, id);
    }
    SubsetSize(AllPassers(f, k, a, z), shared + local);
    var x, y := LossCount(f.losses, Shared, k, a, z), LocalLosses(f.losses, n, k, a, z);
    var all := AllLosses(f.losses, k, a, z);
    QuotasAdd(limit, 1 + x, n + y);
    QuotasGrow(limit, 1 + x + (n + y), n + 1 + all);
    QuotasAreProducts(limit, n + 1 + all);
  }

  // ------------------------------------------------------------------ Retry-After

  /** Every stamp a backend holds of `k` later than `x` is an admission of its own. */
  ghost predicate Held(f: Fleet, b: Backend, k: Key, x: int) {
    LiveAt(f, b, k, x) <= AdmitCount(f.admissions, b, k, x, f.clock)
  }

  ghost predicate AllHeld(rules: Rules, f: Fleet) {
    StoresOk(rules, f) && forall b, k, x :: Held(f, b, k, x)
  }

  lemma {:induction false} LaterCountsMore(log: seq<Entry>, b: Backend, k: Key, x: int, z1: int, z2: int)
    requires z1 <= z2
    ensures AdmitCount(log, b, k, x, z1) <= AdmitCount(log, b, k, x, z2)
  {
    if log != [] {
      LaterCountsMore(log[..|log| - 1], b, k, x, z1, z2);
    }
  }

  lemma HeldTick(f: Fleet, f': Fleet, b: Backend, k: Key, x: int)
    requires Held(f, b, k, x) && f.clock <= f'.clock && LiveAt(f', b, k, x) <= LiveAt(f, b, k, x)
    requires AdmitCount(f'.admissions, b, k, x, f'.clock) == AdmitCount(f.admissions, b, k, x, f'.clock)
    ensures Held(f', b, k, x)
  {
    hide LiveAt, AdmitCount;
    LaterCountsMore(f.admissions, b, k, x, f.clock, f'.clock);
  }

  lemma HeldForget(rules: Rules, f: Fleet, e: Event, b: Backend, k: Key, x: int)
    requires e.RedisForgets? && Enabled(f, e) && Held(f, b, k, x)
    ensures Held(Step(rules, f, e), b, k, x)
  {
    ForgetStep(rules, f, e);
    LiveForgotten(f, Step(rules, f, e), e.keys, b, k, x);
    hide Step, Enabled, LiveAt, AdmitCount, Held;
    HeldTick(f, Step(rules, f, e), b, k, x);
  }

  lemma HeldRestart(rules: Rules, f: Fleet, e: Event, b: Backend, k: Key, x: int)
    requires e.Restart? && Enabled(f, e) && Held(f, b, k, x)
    ensures Held(Step(rules, f, e), b, k, x)
  {
    RestartStep(rules, f, e);
    LiveRestarted(f, Step(rules, f, e), e.process, b, k, x);
    hide Step, Enabled, LiveAt, AdmitCount, Held;
    HeldTick(f, Step(rules, f, e), b, k, x);
  }

  lemma HeldRedis(rules: Rules, f: Fleet, e: Event, b: Backend, k: Key, x: int)
    requires e.AskRedis? && Enabled(f, e) && Held(f, b, k, x)
    ensures Held(Step(rules, f, e), b, k, x)
  {
    hide ScriptStep, AdmitCount, Scores, LiveScores, Live;
    var f', key := Step(rules, f, e), NextKey(f, e.id, true);
    AdmitAppend(f.admissions, Entry(Shared, key, e.now, e.id), b, k, x, e.now);
    LaterCountsMore(f.admissions, b, k, x, f.clock, e.now);
    assert f.admissions + [] == f.admissions;
    HeldScript(f.db, k, Call(key, e.now, e.member), rules(key), x);
  }

  lemma HeldLocal(rules: Rules, f: Fleet, e: Event, b: Backend, k: Key, x: int)
    requires Positive(rules) && e.AskLocal? && Enabled(f, e) && StoresOk(rules, f) && Held(f, b, k, x)
    ensures Held(Step(rules, f, e), b, k, x)
  {
    hide CheckStep, AdmitCount, WellOrdered, Honest, LiveScores, Live;
    var f', key, p := Step(rules, f, e), NextKey(f, e.id, false), f.requests[e.id].process;
    AdmitAppend(f.admissions, Entry(Process(p), key, e.now, e.id), b, k, x, e.now);
    LaterCountsMore(f.admissions, b, k, x, f.clock, e.now);
    assert f.admissions + [] == f.admissions;
    HeldStep(f.locals[p], k, Call(key, e.now, ""), rules(key), x);
  }

  lemma StepHeld(rules: Rules, f: Fleet, e: Event)
    requires Positive(rules) && Enabled(f, e) && AllHeld(rules, f)
    ensures AllHeld(rules, Step(rules, f, e))
  {
    StepStores(rules, f, e);
    hide StoresOk, Held;
    var f' := Step(rules, f, e);
    forall b, k, x ensures Held(f', b, k, x) {
      assert Held(f, b, k, x);
      match e
      case Arrive(_, _, _, _) => HeldArrive(rules, f, e, b, k, x);
      case AskRedis(_, _, _, _) => HeldRedis(rules, f, e, b, k, x);
      case AskLocal(_, _) => HeldLocal(rules, f, e, b, k, x);
      case RedisForgets(_, _) => HeldForget(rules, f, e, b, k, x);
      case Restart(_, _) => HeldRestart(rules, f, e, b, k, x);
    }
  }

  lemma HeldArrive(rules: Rules, f: Fleet, e: Event, b: Backend, k: Key, x: int)
    requires e.Arrive? && Enabled(f, e) && Held(f, b, k, x)
    ensures Held(Step(rules, f, e), b, k, x)
  {}

  lemma {:induction false} RunHeld(rules: Rules, f: Fleet, events: seq<Event>)
    requires Positive(rules) && AllHeld(rules, f) && Runs(rules, f, events)
    ensures AllHeld(rules, After(rules, f, events))
    decreases |events|
  {
    hide AllHeld, Enabled, Step;
    if events != [] {
      StepHeld(rules, f, events[0]);
      RunHeld(rules, Step(rules, f, events[0]), events[1..]);
    }
  }

  lemma StartHeld(rules: Rules, processes: nat, clock: int)
    ensures AllHeld(rules, Start(processes, clock))
  {
    var f := Start(processes, clock);
    forall b, k, x ensures Held(f, b, k, x) {
      LaterOfNothing(x);
    }
  }

  lemma {:induction false} NoneAdmitted(log: seq<Entry>, b: Backend, k: Key, x: int, z: int)
    requires forall i :: 0 <= i < |log| && log[i].key == k ==> log[i].time <= x
    ensures AdmitCount(log, b, k, x, z) == 0
  {
    if log != [] {
      NoneAdmitted(log[..|log| - 1], b, k, x, z);
    }
  }

  /** Every check of `k` at `t1` admits: by the script, and by every process's own map. */
  ghost predicate AdmitsEverywhere(rules: Rules, f: Fleet, k: Key, t1: int) {
    && (forall member :: ScriptStep(f.db, k, rules(k), t1, member, true).1)
    && (forall p :: 0 <= p < |f.locals| ==> CheckStep(f.locals[p], k, rules(k), t1).1)
  }

  lemma SubmapOfLater(db: Db, k: Key, now: int, x: int)
    ensures |Later(Found(db, k, now, true), x)| <= LiveScores(db, k, x)
  {
    SubmapSize(Later(Found(db, k, now, true), x), Later(Scores(db, k), x));
  }

  /** No backend has admitted `k` after `x`. */
  ghost predicate Idle(f: Fleet, k: Key, x: int) {
    forall i :: 0 <= i < |f.admissions| && f.admissions[i].key == k ==> f.admissions[i].time <= x
  }

  lemma NoneLive(f: Fleet, b: Backend, k: Key, x: int)
    requires Held(f, b, k, x) && Idle(f, k, x)
    ensures LiveAt(f, b, k, x) == 0
  {
    hide LiveAt;
    NoneAdmitted(f.admissions, b, k, x, f.clock);
  }

  lemma WaitingPassesRedis(rules: Rules, f: Fleet, k: Key, t1: int, member: string)
    requires Positive(rules) && f.clock <= t1
    requires LiveAt(f, Shared, k, t1 - rules(k).window) == 0
    ensures ScriptStep(f.db, k, rules(k), t1, member, true).1
  {
    var x := t1 - rules(k).window;
    SubmapOfLater(f.db, k, t1, x);
    ScriptEffect(f.db, k, rules(k), t1, member, true);
    hide ScriptStep, Later, Found, Scores;
  }

  lemma WaitingPassesLocal(rules: Rules, f: Fleet, k: Key, t1: int, p: nat)
    requires Positive(rules) && StoresOk(rules, f) && f.clock <= t1 && p < |f.locals|
    requires LiveAt(f, Process(p), k, t1 - rules(k).window) == 0
    ensures CheckStep(f.locals[p], k, rules(k), t1).1
  {
    hide CheckStep, Prune;
    CheckSelf(f.locals[p], k, rules(k), t1);
  }

  lemma WaitingPassesAt(rules: Rules, f: Fleet, k: Key, t1: int)
    requires Positive(rules) && AllHeld(rules, f) && f.clock <= t1 && Idle(f, k, t1 - rules(k).window)
    ensures AdmitsEverywhere(rules, f, k, t1)
  {
    hide StoresOk, ScriptStep, CheckStep, LiveAt, Idle, Held;
    var x := t1 - rules(k).window;
    forall member ensures ScriptStep(f.db, k, rules(k), t1, member, true).1 {
      assert Held(f, Shared, k, x);
      NoneLive(f, Shared, k, x);
      WaitingPassesRedis(rules, f, k, t1, member);
    }
    forall p | 0 <= p < |f.locals| ensures CheckStep(f.locals[p], k, rules(k), t1).1 {
      assert Held(f, Process(p), k, x);
      NoneLive(f, Process(p), k, x);
      WaitingPassesLocal(rules, f, k, t1, p);
    }
  }

  /** Waiting is enough on whichever backend decides: after any run of the fleet, failovers
      included, if no backend has admitted `k` in the last W, a check of `k` passes on Redis and
      on every process's fallback map. */
  lemma WaitingPassesEverywhere(rules: Rules, processes: nat, clock: int, events: seq<Event>, k: Key, t1: int)
    requires Positive(rules) && Runs(rules, Start(processes, clock), events)
    requires var f := After(rules, Start(processes, clock), events);
             f.clock <= t1 && Idle(f, k, t1 - rules(k).window)
    ensures AdmitsEverywhere(rules, After(rules, Start(processes, clock), events), k, t1)
  {
    hide AllHeld, Runs, After, Idle, AdmitsEverywhere;
    StartHeld(rules, processes, clock);
    RunHeld(rules, Start(processes, clock), events);
    WaitingPassesAt(rules, After(rules, Start(processes, clock), events), k, t1);
  }
}
