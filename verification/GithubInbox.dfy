/** GitHub webhook ingress: insert the dedup row, enqueue the job, then commit.  Any number of
    handlers of any deliveries interleave between any two database or queue operations; an
    insert waits while another transaction holds the same delivery id; enqueue and commit may
    fail, with or without having taken effect; a handler may crash anywhere. */
module GithubInbox {
  import opened Attempts

  type Delivery = string

  datatype Answer = Queued | Duplicate | Unavailable | ServerError

  /** Where a handler is.  Inserted and Handed hold an uncommitted row. */
  datatype Stage = Arrived | Inserted | Handed | Answered(answer: Answer) | Crashed

  /** `sent`: its job reached the queue.  `landed`: its commit took effect. */
  datatype Handler = Handler(delivery: Delivery, stage: Stage, sent: bool, landed: bool)

  /** `jobs` lists every job that ever reached the queue. */
  datatype Ingress = Ingress(rows: set<Delivery>, jobs: seq<Delivery>, handlers: seq<Handler>)

  const START := Ingress({}, [], [])

  datatype Event =
    | Arrive(delivery: Delivery)
    | Insert(i: nat)
    | Enqueue(i: nat, ok: bool, reached: bool)
    | Commit(i: nat, ok: bool, reached: bool)
    | Crash(i: nat)

  predicate Holds(h: Handler, d: Delivery) {
    h.delivery == d && (h.stage == Inserted || h.stage == Handed)
  }

  /** Another transaction holds an uncommitted row of this delivery. */
  predicate Blocked(hs: seq<Handler>, d: Delivery) {
    exists j :: 0 <= j < |hs| && Holds(hs[j], d)
  }

  predicate Enabled(s: Ingress, e: Event) {
    match e
    case Arrive(_) => true
    case Insert(i) => i < |s.handlers| && s.handlers[i].stage == Arrived && !Blocked(s.handlers, s.handlers[i].delivery)
    case Enqueue(i, ok, reached) => i < |s.handlers| && s.handlers[i].stage == Inserted && (ok ==> reached)
    case Commit(i, ok, reached) => i < |s.handlers| && s.handlers[i].stage == Handed && (ok ==> reached)
    case Crash(i) => i < |s.handlers| && !s.handlers[i].stage.Answered? && s.handlers[i].stage != Crashed
  }

  function Step(s: Ingress, e: Event): Ingress
    requires Enabled(s, e)
  {
    match e
    case Arrive(d) => s.(handlers := s.handlers + [Handler(d, Arrived, false, false)])
    case Insert(i) =>
      var h := s.handlers[i];
      s.(handlers := s.handlers[i := h.(stage := if h.delivery in s.rows then Answered(Duplicate) else Inserted)])
    case Enqueue(i, ok, reached) =>
      var h := s.handlers[i];
      s.(jobs := if reached then s.jobs + [h.delivery] else s.jobs,
         handlers := s.handlers[i := h.(stage := if ok then Handed else Answered(Unavailable), sent := reached)])
    case Commit(i, ok, reached) =>
      var h := s.handlers[i];
      s.(rows := if reached then s.rows + {h.delivery} else s.rows,
         handlers := s.handlers[i := h.(stage := Answered(if ok then Queued else ServerError), landed := reached)])
    case Crash(i) => s.(handlers := s.handlers[i := s.handlers[i].(stage := Crashed)])
  }

  predicate Runs(s: Ingress, events: seq<Event>)
    decreases |events|
  {
    events == [] || (Enabled(s, events[0]) && Runs(Step(s, events[0]), events[1..]))
  }

  function After(s: Ingress, events: seq<Event>): Ingress
    requires Runs(s, events)
    decreases |events|
  {
    if events == [] then s else After(Step(s, events[0]), events[1..])
  }

  // ------------------------------------------------------------------ counting handlers

  datatype Fact = Sending | Landing | Holding | Orphaning

  predicate Shows(h: Handler, fact: Fact) {
    match fact
    case Sending => h.sent
    case Landing => h.landed
    case Holding => h.stage == Inserted || h.stage == Handed
    case Orphaning => h.sent && !h.landed
  }

  /** How many handlers of `d` show `fact`. */
  function Tally(hs: seq<Handler>, d: Delivery, fact: Fact): nat {
    if hs == [] then 0
    else
      var h := hs[|hs| - 1];
      Tally(hs[..|hs| - 1], d, fact) + (if h.delivery == d && Shows(h, fact) then 1 else 0)
  }

  function Enqueued(jobs: seq<Delivery>, d: Delivery): nat {
    if jobs == [] then 0 else Enqueued(jobs[..|jobs| - 1], d) + (if jobs[|jobs| - 1] == d then 1 else 0)
  }

  lemma TallyAppend(hs: seq<Handler>, h: Handler, d: Delivery, fact: Fact)
    ensures Tally(hs + [h], d, fact) == Tally(hs, d, fact) + (if h.delivery == d && Shows(h, fact) then 1 else 0)
  {
    assert (hs + [h])[..|hs|] == hs;
  }

  lemma EnqueuedAppend(jobs: seq<Delivery>, x: Delivery, d: Delivery)
    ensures Enqueued(jobs + [x], d) == Enqueued(jobs, d) + (if x == d then 1 else 0)
  {
    assert (jobs + [x])[..|jobs|] == jobs;
  }

  lemma {:induction false} TallyUpdate(hs: seq<Handler>, i: nat, h: Handler, d: Delivery, fact: Fact)
    requires i < |hs|
    ensures Tally(hs[i := h], d, fact) + (if hs[i].delivery == d && Shows(hs[i], fact) then 1 else 0)
            == Tally(hs, d, fact) + (if h.delivery == d && Shows(h, fact) then 1 else 0)
  {
    var n := |hs| - 1;
    if i < n {
      TallyUpdate(hs[..n], i, h, d, fact);
      assert hs[i := h][..n] == hs[..n][i := h];
    } else {
      assert hs[i := h][..n] == hs[..n];
    }
  }

  lemma {:induction false} TallyPositive(hs: seq<Handler>, i: nat, d: Delivery, fact: Fact)
    requires i < |hs| && hs[i].delivery == d && Shows(hs[i], fact)
    ensures Tally(hs, d, fact) >= 1
  {
    if i < |hs| - 1 {
      TallyPositive(hs[..|hs| - 1], i, d, fact);
    }
  }

  lemma {:induction false} TallyWitness(hs: seq<Handler>, d: Delivery, fact: Fact)
    requires Tally(hs, d, fact) >= 1
    ensures exists i :: 0 <= i < |hs| && hs[i].delivery == d && Shows(hs[i], fact)
  {
    var n := |hs| - 1;
    if !(hs[n].delivery == d && Shows(hs[n], fact)) {
      TallyWitness(hs[..n], d, fact);
      var i :| 0 <= i < n && hs[..n][i].delivery == d && Shows(hs[..n][i], fact);
      assert hs[i].delivery == d && Shows(hs[i], fact);
    }
  }

  lemma {:induction false} SentIsLandedOrOrphan(hs: seq<Handler>, d: Delivery)
    requires forall i :: 0 <= i < |hs| && hs[i].landed ==> hs[i].sent
    ensures Tally(hs, d, Sending) == Tally(hs, d, Landing) + Tally(hs, d, Orphaning)
  {
    if hs != [] {
      SentIsLandedOrOrphan(hs[..|hs| - 1], d);
    }
  }

  // ------------------------------------------------------------------ invariant

  /** What each handler's flags mean at its stage. */
  ghost predicate Consistent(s: Ingress, h: Handler) {
    && (h.landed ==> h.sent && h.delivery in s.rows)
    && (h.stage == Arrived || h.stage == Inserted ==> !h.sent)
    && (h.stage == Handed ==> h.sent && !h.landed)
    && (h.stage == Answered(Queued) ==> h.landed)
    && (h.stage == Answered(Duplicate) ==> h.delivery in s.rows)
  }

  /** The books of one delivery: its jobs are the handlers that sent one, its row is the work
      of exactly one handler, and while a row is uncommitted it is the only one. */
  ghost predicate Books(s: Ingress, d: Delivery) {
    && Enqueued(s.jobs, d) == Tally(s.handlers, d, Sending)
    && Tally(s.handlers, d, Landing) == (if d in s.rows then 1 else 0)
    && Tally(s.handlers, d, Holding) <= (if d in s.rows then 0 else 1)
  }

  ghost predicate Inv(s: Ingress) {
    && (forall i :: 0 <= i < |s.handlers| ==> Consistent(s, s.handlers[i]))
    && (forall d :: Books(s, d))
  }

  lemma HolderBlocks(hs: seq<Handler>, d: Delivery)
    ensures Tally(hs, d, Holding) >= 1 ==> Blocked(hs, d)
  {
    if Tally(hs, d, Holding) >= 1 {
      TallyWitness(hs, d, Holding);
      var i :| 0 <= i < |hs| && hs[i].delivery == d && Shows(hs[i], Holding);
      assert Holds(hs[i], d);
    }
  }

  lemma BooksStep(s: Ingress, e: Event, d: Delivery)
    requires Enabled(s, e) && Inv(s)
    ensures Books(Step(s, e), d)
  {
    hide Tally, Enqueued, Blocked;
    var s' := Step(s, e);
    assert Books(s, d);
    forall fact ensures e.Arrive? ==> Tally(s'.handlers, d, fact) == Tally(s.handlers, d, fact) {
      if e.Arrive? { TallyAppend(s.handlers, Handler(e.delivery, Arrived, false, false), d, fact); }
    }
    if !e.Arrive? {
      var h, h' := s.handlers[e.i], s'.handlers[e.i];
      assert Consistent(s, h);
      TallyUpdate(s.handlers, e.i, h', d, Sending);
      TallyUpdate(s.handlers, e.i, h', d, Landing);
      TallyUpdate(s.handlers, e.i, h', d, Holding);
      EnqueuedAppend(s.jobs, h.delivery, d);
      if e.Insert? && h.delivery == d {
        HolderBlocks(s.handlers, d);
      }
      if h.delivery == d && Shows(h, Holding) {
        TallyPositive(s.handlers, e.i, d, Holding);
      }
    }
  }

  lemma StepInv(s: Ingress, e: Event)
    requires Enabled(s, e) && Inv(s)
    ensures Inv(Step(s, e))
  {
    forall d ensures Books(Step(s, e), d) {
      BooksStep(s, e, d);
    }
    hide Books;
    var s' := Step(s, e);
    forall i | 0 <= i < |s'.handlers| ensures Consistent(s', s'.handlers[i]) {
      if i < |s.handlers| {
        assert Consistent(s, s.handlers[i]);
      }
    }
  }

  lemma {:induction false} RunInv(s: Ingress, events: seq<Event>)
    requires Inv(s) && Runs(s, events)
    ensures Inv(After(s, events))
    decreases |events|
  {
    hide Inv, Enabled, Step;
    if events != [] {
      StepInv(s, events[0]);
      RunInv(Step(s, events[0]), events[1..]);
    }
  }

  // ------------------------------------------------------------------ what the ingress promises

  /** In every run: the jobs enqueued for a delivery number its committed row (0 or 1) plus the
      handlers that handed their job over and then did not commit. */
  lemma TotalEnqueues(events: seq<Event>, d: Delivery)
    requires Runs(START, events)
    ensures var s := After(START, events);
            Enqueued(s.jobs, d) == (if d in s.rows then 1 else 0) + Tally(s.handlers, d, Orphaning)
  {
    var s := After(START, events);
    RunInv(START, events);
    assert Books(s, d);
    assert forall i :: 0 <= i < |s.handlers| ==> Consistent(s, s.handlers[i]);
    SentIsLandedOrOrphan(s.handlers, d);
  }

  /** In every run: a committed row means the delivery was enqueued; so does every answer that
      tells GitHub not to deliver again. */
  lemma CommittedMeansEnqueued(events: seq<Event>, d: Delivery)
    requires Runs(START, events)
    ensures var s := After(START, events);
            d in s.rows ==> Enqueued(s.jobs, d) >= 1
    ensures var s := After(START, events);
            forall i :: 0 <= i < |s.handlers| && s.handlers[i].stage in {Answered(Queued), Answered(Duplicate)}
              ==> s.handlers[i].delivery in s.rows && Enqueued(s.jobs, s.handlers[i].delivery) >= 1
  {
    var s := After(START, events);
    RunInv(START, events);
    TotalEnqueues(events, d);
    forall i | 0 <= i < |s.handlers| && s.handlers[i].stage in {Answered(Queued), Answered(Duplicate)}
      ensures s.handlers[i].delivery in s.rows && Enqueued(s.jobs, s.handlers[i].delivery) >= 1
    {
      assert Consistent(s, s.handlers[i]);
      TotalEnqueues(events, s.handlers[i].delivery);
    }
  }

  /** Two handlers never hold the same delivery, and none holds one already committed. */
  lemma OneHolder(events: seq<Event>, i: nat, j: nat)
    requires Runs(START, events)
    requires var hs := After(START, events).handlers;
             i < |hs| && j < |hs| && hs[i].delivery == hs[j].delivery
             && Holds(hs[i], hs[i].delivery) && Holds(hs[j], hs[j].delivery)
    ensures i == j && After(START, events).handlers[i].delivery !in After(START, events).rows
  {
    var s := After(START, events);
    var hs, d := s.handlers, s.handlers[i].delivery;
    RunInv(START, events);
    assert Books(s, d);
    TallyPositive(hs, i, d, Holding);
    if i != j {
      var h := hs[i].(stage := Crashed);
      TallyUpdate(hs, i, h, d, Holding);
      TallyPositive(hs[i := h], j, d, Holding);
    }
  }

  // ------------------------------------------------------------------ the handler itself

  datatype Reply = NotFound | BadSignature | MissingHeaders | Handled(answer: Answer)

  /** The steps of one handler that nobody interrupts. */
  function Script(s: Ingress, d: Delivery, handoff: Attempt, commit: Attempt): seq<Event> {
    var n := |s.handlers|;
    if d in s.rows then [Arrive(d), Insert(n)]
    else if !handoff.ok then [Arrive(d), Insert(n), Enqueue(n, false, handoff.reached)]
    else [Arrive(d), Insert(n), Enqueue(n, true, true), Commit(n, commit.ok, commit.reached)]
  }

  lemma RunsCons(s: Ingress, e: Event, events: seq<Event>)
    requires Enabled(s, e) && Runs(Step(s, e), events)
    ensures Runs(s, [e] + events) && After(s, [e] + events) == After(Step(s, e), events)
  {
    assert ([e] + events)[1..] == events;
  }

  lemma RunsOne(s: Ingress, e: Event)
    requires Enabled(s, e)
    ensures Runs(s, [e]) && After(s, [e]) == Step(s, e)
  {
    RunsCons(s, e, []);
    assert [e] + [] == [e];
  }

  lemma RunsTwo(s: Ingress, e1: Event, e2: Event)
    requires Enabled(s, e1) && Enabled(Step(s, e1), e2)
    ensures Runs(s, [e1, e2]) && After(s, [e1, e2]) == Step(Step(s, e1), e2)
  {
    RunsOne(Step(s, e1), e2);
    RunsCons(s, e1, [e2]);
    assert [e1] + [e2] == [e1, e2];
  }

  /** The state in which a handler has inserted its row. */
  function Opened(s: Ingress, d: Delivery): Ingress {
    s.(handlers := s.handlers + [Handler(d, if d in s.rows then Answered(Duplicate) else Inserted, false, false)])
  }

  lemma OpeningRuns(s: Ingress, d: Delivery, rest: seq<Event>)
    requires !Blocked(s.handlers, d) && Runs(Opened(s, d), rest)
    ensures var events := [Arrive(d), Insert(|s.handlers|)] + rest;
            Runs(s, events) && After(s, events) == After(Opened(s, d), rest)
  {
    hide Runs, After;
    var s1, n := Step(s, Arrive(d)), |s.handlers|;
    assert !Blocked(s1.handlers, d);
    assert Step(s1, Insert(n)) == Opened(s, d);
    RunsCons(s1, Insert(n), rest);
    RunsCons(s, Arrive(d), [Insert(n)] + rest);
    assert [Arrive(d), Insert(n)] + rest == [Arrive(d)] + ([Insert(n)] + rest);
  }

  /** Where an uninterrupted handler leaves things. */
  function Outcome(s: Ingress, d: Delivery, handoff: Attempt, commit: Attempt): Ingress {
    if d in s.rows then s.(handlers := s.handlers + [Handler(d, Answered(Duplicate), false, false)])
    else if !handoff.ok then
      s.(jobs := if handoff.reached then s.jobs + [d] else s.jobs,
         handlers := s.handlers + [Handler(d, Answered(Unavailable), handoff.reached, false)])
    else
      s.(jobs := s.jobs + [d], rows := if commit.reached then s.rows + {d} else s.rows,
         handlers := s.handlers + [Handler(d, Answered(if commit.ok then Queued else ServerError), true,
                                           commit.reached)])
  }

  lemma ScriptRuns(s: Ingress, d: Delivery, handoff: Attempt, commit: Attempt)
    requires !Blocked(s.handlers, d) && (handoff.ok ==> handoff.reached) && (commit.ok ==> commit.reached)
    ensures Runs(s, Script(s, d, handoff, commit))
    ensures After(s, Script(s, d, handoff, commit)) == Outcome(s, d, handoff, commit)
  {
    var t, n := Opened(s, d), |s.handlers|;
    var rest := if d in s.rows then []
                else if !handoff.ok then [Enqueue(n, false, handoff.reached)]
                else [Enqueue(n, true, true), Commit(n, commit.ok, commit.reached)];
    assert Runs(t, rest) && After(t, rest) == Outcome(s, d, handoff, commit) by {
      if d !in s.rows {
        if handoff.ok {
          RunsTwo(t, Enqueue(n, true, true), Commit(n, commit.ok, commit.reached));
        } else {
          RunsOne(t, Enqueue(n, false, handoff.reached));
        }
      }
    }
    OpeningRuns(s, d, rest);
    assert Script(s, d, handoff, commit) == [Arrive(d), Insert(n)] + rest;
  }

  /** One more delivery of `d` that meets no failure. */
  function Retry(s: Ingress, d: Delivery): seq<Event> {
    Script(s, d, Attempt(true, true), Attempt(true, true))
  }

  /** Nothing is ever lost for good: whatever happened before, once no handler holds the
      delivery, one redelivery that meets no failure ends with it enqueued and committed. */
  lemma RedeliverySucceeds(events: seq<Event>, d: Delivery)
    requires Runs(START, events) && !Blocked(After(START, events).handlers, d)
    ensures var s := After(START, events);
            && Runs(s, Retry(s, d))
            && var t := After(s, Retry(s, d));
               && d in t.rows && Enqueued(t.jobs, d) >= 1
               && t.handlers == s.handlers + [Handler(d, Answered(if d in s.rows then Duplicate else Queued),
                                                      d !in s.rows, d !in s.rows)]
  {
    RunInv(START, events);
    hide Enqueued, Inv, Runs, After, Script, Blocked;
    var s := After(START, events);
    ScriptRuns(s, d, Attempt(true, true), Attempt(true, true));
    RunInv(s, Retry(s, d));
    RowIsEnqueued(After(s, Retry(s, d)), d);
  }

  lemma RowIsEnqueued(s: Ingress, d: Delivery)
    requires Inv(s) && d in s.rows
    ensures Enqueued(s.jobs, d) >= 1
  {
    assert Books(s, d);
    assert forall i :: 0 <= i < |s.handlers| ==> Consistent(s, s.handlers[i]);
    SentIsLandedOrOrphan(s.handlers, d);
  }

  /** A handler that hands a delivery over and dies before its commit. */
  function Orphaned(d: Delivery): seq<Event> {
    [Arrive(d)] + ([Insert(0)] + ([Enqueue(0, true, true)] + ([Crash(0)] + [])))
  }

  /** The price is at least once: such a crash leaves a job without a row, and the redelivery that
      commits the row enqueues the delivery a second time. */
  lemma CrashCostsADuplicate(d: Delivery)
    ensures Runs(START, Orphaned(d))
    ensures var s := After(START, Orphaned(d));
            && d !in s.rows && s.jobs == [d] && !Blocked(s.handlers, d)
            && Runs(s, Retry(s, d))
            && d in After(s, Retry(s, d)).rows && After(s, Retry(s, d)).jobs == [d, d]
  {
    var s1 := Step(START, Arrive(d));
    assert !Blocked(s1.handlers, d);
    var s2 := Step(s1, Insert(0));
    var s3 := Step(s2, Enqueue(0, true, true));
    var s4 := Step(s3, Crash(0));
    assert Runs(s4, []) && After(s4, []) == s4;
    RunsCons(s3, Crash(0), []);
    RunsCons(s2, Enqueue(0, true, true), [Crash(0)] + []);
    RunsCons(s1, Insert(0), [Enqueue(0, true, true)] + ([Crash(0)] + []));
    RunsCons(START, Arrive(d), [Insert(0)] + ([Enqueue(0, true, true)] + ([Crash(0)] + [])));
    assert s4.jobs == [d] && s4.handlers == [Handler(d, Crashed, true, false)];
    ScriptRuns(s4, d, Attempt(true, true), Attempt(true, true));
    assert [d] + [d] == [d, d];
  }

  /** The dedup table and the queue, as one handler sees them. */
  class Service {
    var rows: set<Delivery>
    var jobs: seq<Delivery>
    ghost var handlers: seq<Handler>

    ghost function View(): Ingress
      reads this
    {
      Ingress(rows, jobs, handlers)
    }

    constructor ()
      ensures View() == START
    {
      rows, jobs, handlers := {}, [], [];
    }

    /** `github_webhook`, given what its environment does, from the moment no other transaction
        holds the delivery (until then its insert waits).  A header that is absent is "". */
    method GithubWebhook(configured: bool, signed: bool, delivery: string, eventType: string,
                         handoff: Attempt, commit: Attempt) returns (reply: Reply)
      requires !Blocked(handlers, delivery)
      requires (handoff.ok ==> handoff.reached) && (commit.ok ==> commit.reached)
      modifies this
      ensures !configured ==> reply == NotFound
      ensures configured && !signed ==> reply == BadSignature
      ensures configured && signed ==> (reply == MissingHeaders <==> delivery == "" || eventType == "")
      ensures !reply.Handled? ==> View() == old(View())
      ensures reply.Handled? ==>
                && Runs(old(View()), Script(old(View()), delivery, handoff, commit))
                && View() == After(old(View()), Script(old(View()), delivery, handoff, commit))
                && |handlers| == |old(handlers)| + 1
                && handlers[|old(handlers)|].stage == Answered(reply.answer)
      ensures reply.Handled? ==>
                reply.answer == if delivery in old(rows) then Duplicate
                                else if !handoff.ok then Unavailable
                                else if commit.ok then Queued else ServerError
      ensures reply.Handled? ==>
                && rows == old(rows) + (if handoff.ok && commit.reached then {delivery} else {})
                && jobs == old(jobs) + (if delivery !in old(rows) && handoff.reached then [delivery] else [])
    {
      if !configured { return NotFound; }
      if !signed { return BadSignature; }
      if delivery == "" || eventType == "" { return MissingHeaders; }
      hide Runs, After, Script, Blocked;
      ScriptRuns(View(), delivery, handoff, commit);
      if delivery in rows {
        handlers := handlers + [Handler(delivery, Answered(Duplicate), false, false)];
        return Handled(Duplicate);
      }
      if handoff.reached {
        jobs := jobs + [delivery];
      }
      if !handoff.ok {
        handlers := handlers + [Handler(delivery, Answered(Unavailable), handoff.reached, false)];
        return Handled(Unavailable);
      }
      if commit.reached {
        rows := rows + {delivery};
      }
      var answer := if commit.ok then Queued else ServerError;
      handlers := handlers + [Handler(delivery, Answered(answer), true, commit.reached)];
      return Handled(answer);
    }
  }
}
