/** The dispatcher meets the fleet: a request that nobody interrupts is one run of the fleet, so
    the window bound of the fleet holds of the tiers the dispatcher enforces. */
module Gate {
  import opened Options
  import opened SlidingWindow
  import opened LocalFallback
  import opened RedisWindow
  import T = Tiers
  import D = Dispatch
  import opened Fleet

  function Keys(cs: seq<T.Charge>): seq<Key> {
    seq(|cs|, i requires 0 <= i < |cs| => cs[i].key)
  }

  /** The request `id` still has exactly the charges `cs` before it, on this backend. */
  ghost predicate Faces(rules: Rules, f: Fleet, id: nat, onRedis: bool, cs: seq<T.Charge>) {
    && Walking(f, id, onRedis)
    && f.requests[id].process < |f.locals|
    && f.requests[id].chain[|f.requests[id].passed|..] == Keys(cs)
    && forall c :: c in cs ==> c.rule == rules(c.key)
  }

  ghost predicate Ticking(readings: seq<D.Reading>, clock: int) {
    && (forall i :: 0 <= i < |readings| ==> clock <= readings[i].now)
    && (forall i, j :: 0 <= i < j < |readings| ==> readings[i].now <= readings[j].now)
  }

  lemma RunsCons(rules: Rules, f: Fleet, e: Event, events: seq<Event>)
    requires Enabled(f, e) && Runs(rules, Step(rules, f, e), events)
    ensures Runs(rules, f, [e] + events) && After(rules, f, [e] + events) == After(rules, Step(rules, f, e), events)
  {
    assert ([e] + events)[1..] == events;
  }

  lemma RunsNone(rules: Rules, f: Fleet)
    ensures Runs(rules, f, []) && After(rules, f, []) == f
  {}

  /** One local check of the fleet is one turn of the local walk. */
  lemma LocalTurn(rules: Rules, f: Fleet, id: nat, cs: seq<T.Charge>, now: int)
    requires cs != [] && Faces(rules, f, id, false, cs) && f.clock <= now
    ensures Enabled(f, AskLocal(id, now))
    ensures var p := f.requests[id].process;
            var (s', ok) := CheckStep(f.locals[p], cs[0].key, cs[0].rule, now);
            var f' := Step(rules, f, AskLocal(id, now));
            && f'.clock == now && f'.db == f.db && f'.locals == f.locals[p := s']
            && id in f'.requests && f'.requests[id].process == p
            && (!ok ==> f'.requests[id].verdict == Rejected)
            && (ok && |cs| == 1 ==> f'.requests[id].verdict == Forwarded)
            && (ok && |cs| > 1 ==> Faces(rules, f', id, false, cs[1..]))
  {
    hide CheckStep;
    var r := f.requests[id];
    assert cs[0] in cs;
    assert r.chain[|r.passed|..][0] == Keys(cs)[0] == cs[0].key;
    assert Keys(cs)[1..] == Keys(cs[1..]);
    assert r.chain[|r.passed|..][1..] == r.chain[|r.passed| + 1..];
    assert forall c :: c in cs[1..] ==> c in cs;
  }

  lemma {:induction false} LocalRun(rules: Rules, f: Fleet, id: nat, cs: seq<T.Charge>, readings: seq<D.Reading>)
    returns (events: seq<Event>)
    requires cs != [] && Faces(rules, f, id, false, cs) && |readings| >= |cs| && Ticking(readings, f.clock)
    ensures Runs(rules, f, events)
    ensures var f' := After(rules, f, events);
            var p := f.requests[id].process;
            var (s', response) := D.LocalWalk(f.locals[p], cs, readings);
            && f'.db == f.db && f'.locals == f.locals[p := s'] && id in f'.requests
            && f'.requests[id].verdict == if response.Forwarded? then Forwarded else Rejected
    decreases |cs|
  {
    LocalTurn(rules, f, id, cs, readings[0].now);
    var e := AskLocal(id, readings[0].now);
    var f', p := Step(rules, f, e), f.requests[id].process;
    var (s', ok) := CheckStep(f.locals[p], cs[0].key, cs[0].rule, readings[0].now);
    hide Runs, After, Step, Enabled, CheckStep;
    if ok && |cs| > 1 {
      var rest := LocalRun(rules, f', id, cs[1..], readings[1..]);
      RunsCons(rules, f, e, rest);
      events := [e] + rest;
      assert f'.locals[p] == s';
      assert f.locals[p := s'][p := D.LocalWalk(s', cs[1..], readings[1..]).0]
          == f.locals[p := D.LocalWalk(s', cs[1..], readings[1..]).0];
    } else {
      RunsNone(rules, f');
      RunsCons(rules, f, e, []);
      events := [e] + [];
      assert ok ==> cs[1..] == [];
    }
  }

  /** One check on Redis is one turn of the walk on Redis; a failed call sends the request back
      to its first tier, on the fallback map. */
  lemma RedisTurn(rules: Rules, f: Fleet, id: nat, cs: seq<T.Charge>, reading: D.Reading, all: seq<T.Charge>)
    requires cs != [] && Faces(rules, f, id, true, cs) && f.clock <= reading.now
    requires reading.member !in Scores(f.db, cs[0].key)
    requires f.requests[id].chain == Keys(all) && forall c :: c in all ==> c.rule == rules(c.key)
    ensures var e := AskRedis(id, reading.now, reading.member, reading.outcome);
            var (db', ok) := ScriptStep(f.db, cs[0].key, cs[0].rule, reading.now, reading.member, true);
            && Enabled(f, e)
            && var f' := Step(rules, f, e);
               && f'.clock == reading.now && f'.locals == f.locals && id in f'.requests
               && f'.requests[id].process == f.requests[id].process && f'.requests[id].chain == Keys(all)
               && f'.db == (if reading.outcome == NotRun then f.db else db')
               && (reading.outcome != Answered ==> Faces(rules, f', id, false, all))
               && (reading.outcome == Answered && !ok ==> f'.requests[id].verdict == Rejected)
               && (reading.outcome == Answered && ok && |cs| == 1 ==> f'.requests[id].verdict == Forwarded)
               && (reading.outcome == Answered && ok && |cs| > 1 ==> Faces(rules, f', id, true, cs[1..]))
  {
    hide ScriptStep, Scores;
    var r := f.requests[id];
    assert cs[0] in cs;
    assert r.chain[|r.passed|..][0] == Keys(cs)[0] == cs[0].key;
    assert Keys(cs)[1..] == Keys(cs[1..]);
    assert r.chain[|r.passed|..][1..] == r.chain[|r.passed| + 1..];
    assert r.chain[0..] == r.chain;
    assert forall c :: c in cs[1..] ==> c in cs;
    assert |r.chain| > 0 && |all| == |r.chain|;
  }

  /** Member names that no sorted set of the walk holds yet. */
  ghost predicate FreshMembers(db: Db, cs: seq<T.Charge>, readings: seq<D.Reading>)
    requires |readings| >= |cs|
  {
    forall i :: 0 <= i < |cs| ==> readings[i].member !in Scores(db, cs[i].key)
  }

  lemma StillFresh(db: Db, cs: seq<T.Charge>, readings: seq<D.Reading>)
    requires cs != [] && |readings| >= |cs| && D.DistinctKeys(cs) && FreshMembers(db, cs, readings)
    ensures D.DistinctKeys(cs[1..])
    ensures FreshMembers(ScriptStep(db, cs[0].key, cs[0].rule, readings[0].now, readings[0].member, true).0, cs[1..],
                         readings[1..])
  {
    hide ScriptStep, Found, Later;
    var db' := ScriptStep(db, cs[0].key, cs[0].rule, readings[0].now, readings[0].member, true).0;
    forall i | 0 <= i < |cs[1..]| ensures readings[1..][i].member !in Scores(db', cs[1..][i].key) {
      ScriptOther(db, cs[i + 1].key, cs[0].rule, Call(cs[0].key, readings[0].now, readings[0].member), true);
      SameScores(db, db', cs[i + 1].key);
      assert readings[i + 1].member !in Scores(db, cs[i + 1].key);
    }
  }

  lemma {:induction false} RedisRun(rules: Rules, f: Fleet, id: nat, cs: seq<T.Charge>, readings: seq<D.Reading>,
                                    all: seq<T.Charge>)
    returns (events: seq<Event>)
    requires cs != [] && Faces(rules, f, id, true, cs) && |readings| >= |cs| && Ticking(readings, f.clock)
    requires D.DistinctKeys(cs) && FreshMembers(f.db, cs, readings)
    requires f.requests[id].chain == Keys(all) && forall c :: c in all ==> c.rule == rules(c.key)
    ensures Runs(rules, f, events)
    ensures var f' := After(rules, f, events);
            var (db', walked) := D.RedisWalk(f.db, cs, readings);
            && f'.db == db' && f'.locals == f.locals
            && id in f'.requests && f'.requests[id].process == f.requests[id].process
            && f'.clock <= readings[|cs| - 1].now
            && match walked
               case Decided(response) => f'.requests[id].verdict == if response.Forwarded? then Forwarded else Rejected
               case RedisError => Faces(rules, f', id, false, all)
    decreases |cs|
  {
    hide Runs, After, Step, Enabled, ScriptStep, Faces, D.DistinctKeys, Keys, Scores;
    var reading := readings[0];
    RedisTurn(rules, f, id, cs, reading, all);
    var e := AskRedis(id, reading.now, reading.member, reading.outcome);
    var f' := Step(rules, f, e);
    var (db', ok) := ScriptStep(f.db, cs[0].key, cs[0].rule, reading.now, reading.member, true);
    if reading.outcome == Answered && ok && |cs| > 1 {
      StillFresh(f.db, cs, readings);
      var rest := RedisRun(rules, f', id, cs[1..], readings[1..], all);
      RunsCons(rules, f, e, rest);
      events := [e] + rest;
    } else {
      RunsNone(rules, f');
      RunsCons(rules, f, e, []);
      events := [e] + [];
      assert ok ==> |cs| > 1 || cs[1..] == [];
    }
  }

  /** The fleet after a request with this chain has arrived. */
  lemma Arrives(rules: Rules, f: Fleet, id: nat, process: nat, cs: seq<T.Charge>, ready: bool)
    requires cs != [] && id !in f.requests && process < |f.locals| && forall c :: c in cs ==> c.rule == rules(c.key)
    ensures var e := Arrive(id, process, Keys(cs), ready);
            && Enabled(f, e)
            && var f' := Step(rules, f, e);
               && f'.clock == f.clock && f'.db == f.db && f'.locals == f.locals && id in f'.requests
               && f'.requests[id].process == process && f'.requests[id].chain == Keys(cs)
               && Faces(rules, f', id, ready, cs)
  {
    var f' := Step(rules, f, Arrive(id, process, Keys(cs), ready));
    assert f'.requests[id].chain[0..] == Keys(cs);
  }

  lemma {:induction false} RunsConcat(rules: Rules, f: Fleet, first: seq<Event>, rest: seq<Event>)
    requires Runs(rules, f, first) && Runs(rules, After(rules, f, first), rest)
    ensures Runs(rules, f, first + rest) && After(rules, f, first + rest) == After(rules, After(rules, f, first), rest)
    decreases |first|
  {
    hide Enabled, Step;
    if first == [] {
      assert first + rest == rest;
    } else {
      RunsConcat(rules, Step(rules, f, first[0]), first[1..], rest);
      assert (first + rest)[1..] == first[1..] + rest;
    }
  }

  lemma ChainFacts(settings: T.Settings, r: T.Request)
    ensures var cs := T.Chain(settings, r);
            cs != [] && |cs| <= 4 && D.DistinctKeys(cs) && forall c :: c in cs ==> c.rule == T.RulesOf(settings)(c.key)
  {
    T.AtMostFourWindows(settings, r);
    hide T.Chain, T.RulesOf;
    forall c | c in T.Chain(settings, r) ensures c.rule == T.RulesOf(settings)(c.key) {
      var i :| 0 <= i < |T.Chain(settings, r)| && T.Chain(settings, r)[i] == c;
      T.ChainFollowsRules(settings, r, i);
    }
  }

  /** Every dispatch is a run of the fleet: the same database, the same fallback maps, the same
      answer, with Redis up, down, or failing anywhere on the way. */
  lemma DispatchIsARun(settings: T.Settings, f: Fleet, id: nat, process: nat, r: T.Request, ready: bool,
                       onRedis: seq<D.Reading>, local: seq<D.Reading>) returns (events: seq<Event>)
    requires id !in f.requests && process < |f.locals| && r.path !in T.BYPASS_PATHS
    requires |onRedis| >= 4 && |local| >= 4 && Ticking(onRedis, f.clock) && Ticking(local, f.clock)
    requires forall i, j :: 0 <= i < |onRedis| && 0 <= j < |local| ==> onRedis[i].now <= local[j].now
    requires |T.Chain(settings, r)| <= 4 ==> FreshMembers(f.db, T.Chain(settings, r), onRedis)
    ensures Runs(T.RulesOf(settings), f, events)
    ensures var f' := After(T.RulesOf(settings), f, events);
            var (s', db', response) :=
              D.DispatchStep(f.locals[process], if ready then Some(f.db) else None, settings, r, onRedis, local);
            && f'.locals == f.locals[process := s'] && (if ready then db' == Some(f'.db) else f'.db == f.db)
            && id in f'.requests && f'.requests[id].verdict == if response.Forwarded? then Forwarded else Rejected
  {
    var rules, cs := T.RulesOf(settings), T.Chain(settings, r);
    ChainFacts(settings, r);
    Arrives(rules, f, id, process, cs, ready);
    var e := Arrive(id, process, Keys(cs), ready);
    var f1 := Step(rules, f, e);
    hide Runs, After, Step, Enabled, Faces, T.Chain, T.RulesOf, D.LocalWalk, D.RedisWalk, T.BYPASS_PATHS, Keys;
    if !ready {
      var rest := LocalRun(rules, f1, id, cs, local);
      RunsCons(rules, f, e, rest);
      events := [e] + rest;
    } else {
      var walk := RedisRun(rules, f1, id, cs, onRedis, cs);
      RunsCons(rules, f, e, walk);
      events := [e] + walk;
      var f2 := After(rules, f1, walk);
      if D.RedisWalk(f.db, cs, onRedis).1.RedisError? {
        assert Ticking(local, f2.clock);
        var rest := LocalRun(rules, f2, id, cs, local);
        RunsConcat(rules, f, events, rest);
        events := events + rest;
      } else {
        assert f2.locals == f.locals[process := f.locals[process]];
      }
    }
  }

  /** The window bound for the real tiers, whatever the settings: the requests that pass a tier
      on one subject in any window of its length number at most (P + 1 + losses) * L. */
  lemma TierBound(settings: T.Settings, processes: nat, clock: int, events: seq<Event>, tier: Tier, subject: string,
                  a: int)
    requires Runs(T.RulesOf(settings), Start(processes, clock), events) && T.SwitchedOn(settings, tier)
    ensures var f := After(T.RulesOf(settings), Start(processes, clock), events);
            var k, rule := Key(tier, subject), T.ChargeOf(settings, tier, subject).rule;
            |AllPassers(f, k, a, a + rule.window)|
                <= (processes + 1 + AllLosses(f.losses, k, a, a + rule.window)) * rule.limit
  {
    hide Runs, After, AllPassers, AllLosses, T.Terms;
    T.RulesArePositive(settings);
    FleetBound(T.RulesOf(settings), processes, clock, events, Key(tier, subject), a);
  }

  /** Retry-After is sufficient across failovers: after any run of the fleet, if nothing has been
      admitted on the key of a charge since `t0`, a check that comes the announced seconds later
      passes on Redis and on every process's fallback map. */
  lemma RetryAfterSuffices(settings: T.Settings, r: T.Request, i: nat, processes: nat, clock: int, events: seq<Event>,
                           t0: int, t1: int)
    requires i < |T.Chain(settings, r)| && t1 >= t0 + T.Chain(settings, r)[i].retryAfter
    requires Runs(T.RulesOf(settings), Start(processes, clock), events)
    requires var f := After(T.RulesOf(settings), Start(processes, clock), events);
             f.clock <= t1 && Idle(f, T.Chain(settings, r)[i].key, t0)
    ensures AdmitsEverywhere(T.RulesOf(settings), After(T.RulesOf(settings), Start(processes, clock), events),
                             T.Chain(settings, r)[i].key, t1)
  {
    T.ChainFollowsRules(settings, r, i);
    hide Runs, After, T.Chain, T.RulesOf, AdmitsEverywhere;
    WaitingPassesEverywhere(T.RulesOf(settings), processes, clock, events, T.Chain(settings, r)[i].key, t1);
  }
}
