/** The billing inbox: insert the row, commit, then enqueue; a periodic sweep enqueues what a
    failed hand-over left behind.  Handlers, workers and sweeps interleave freely; an insert
    waits while another transaction holds the same identity; commits and enqueues may fail,
    with or without having taken effect; a handler may crash anywhere. */
module BillingInbox {
  import opened Attempts

  /** The four columns of the unique index. */
  datatype Identity = Identity(provider: string, event: string, objectId: string, hash: string)

  datatype Status = Received | Processing | Processed | Failed

  /** `deferred`: parked until its out-of-order grant lands; the sweep leaves it alone. */
  datatype Row = Row(identity: Identity, at: int, status: Status, retries: nat, deferred: bool)

  datatype Answer = Ok | AlreadyProcessed | ServerError

  /** Where a handler is.  Inserted holds an uncommitted row, Stored a committed one. */
  datatype Stage = Arrived | Inserted(at: int) | Stored | Answered(answer: Answer) | Crashed

  datatype Handler = Handler(identity: Identity, stage: Stage)

  /** A row has the number of the handler that inserted it; a job has the number of its row,
      so that two jobs of one row are one. */
  datatype Inbox = Inbox(rows: map<nat, Row>, jobs: set<nat>, handlers: seq<Handler>)

  const START := Inbox(map[], {}, [])
  const SWEEP_BATCH: nat := 100
  const JOB_MAX_TRIES: nat := 5

  datatype Event =
    | Arrive(identity: Identity)
    | Insert(i: nat, at: int)
    | Commit(i: nat, ok: bool, reached: bool)
    | Enqueue(i: nat, reached: bool)
    | Crash(i: nat)
    | Work(id: nat, row: Row, done: bool)
    | Sweep(pick: Pick, sent: nat)

  predicate Holds(h: Handler, identity: Identity) {
    h.identity == identity && h.stage.Inserted?
  }

  predicate Blocked(hs: seq<Handler>, identity: Identity) {
    exists j :: 0 <= j < |hs| && Holds(hs[j], identity)
  }

  predicate Stores(rows: map<nat, Row>, identity: Identity) {
    exists id :: id in rows && rows[id].identity == identity
  }

  /** What a sweep picks up; `deferredToo` in the reconciliation, not in the 60-second sweep. */
  predicate Pending(row: Row, deferredToo: bool) {
    || (row.status == Received && (deferredToo || !row.deferred))
    || (row.status == Failed && row.retries < JOB_MAX_TRIES)
  }

  /** Abandoned rows fail and count a retry. */
  function Reclaimed(rows: map<nat, Row>, stale: set<nat>): map<nat, Row> {
    map id | id in rows ::
      if id in stale then rows[id].(status := Failed, retries := rows[id].retries + 1) else rows[id]
  }

  /** What one sweep selects: the `stale` rows it reclaims first, the rows `locked` by a live
      worker, which it skips, and the `pending` ones, oldest first. */
  datatype Pick = Pick(deferredToo: bool, stale: set<nat>, locked: set<nat>, pending: seq<nat>)

  /** `pending` lists exactly the pending rows that are not locked, each once, by age. */
  ghost predicate Lists(rows: map<nat, Row>, p: Pick) {
    && (forall id :: id in p.pending <==> id in rows && Pending(rows[id], p.deferredToo) && id !in p.locked)
    && (forall j, k :: 0 <= j < k < |p.pending| ==>
          p.pending[j] != p.pending[k] && rows[p.pending[j]].at <= rows[p.pending[k]].at)
  }

  /** A selection the queries can make on this table. */
  ghost predicate Selects(rows: map<nat, Row>, p: Pick) {
    && |p.stale| <= SWEEP_BATCH
    && (forall id :: id in p.stale ==> id in rows && rows[id].status == Processing && id !in p.locked)
    && Lists(Reclaimed(rows, p.stale), p)
  }

  /** The rows one sweep claims. */
  function Claimed(pending: seq<nat>): seq<nat> {
    if |pending| <= SWEEP_BATCH then pending else pending[..SWEEP_BATCH]
  }

  function Ids(ids: seq<nat>): set<nat> {
    set id | id in ids
  }

  ghost predicate Enabled(s: Inbox, e: Event) {
    match e
    case Arrive(_) => true
    case Insert(i, _) =>
      i < |s.handlers| && s.handlers[i].stage == Arrived && !Blocked(s.handlers, s.handlers[i].identity)
    case Commit(i, ok, reached) => i < |s.handlers| && s.handlers[i].stage.Inserted? && (ok ==> reached)
    case Enqueue(i, _) => i < |s.handlers| && s.handlers[i].stage == Stored
    case Crash(i) => i < |s.handlers| && !s.handlers[i].stage.Answered? && s.handlers[i].stage != Crashed
    case Work(id, row, _) =>
      id in s.jobs && id in s.rows && row.identity == s.rows[id].identity && row.at == s.rows[id].at
    case Sweep(pick, sent) => Selects(s.rows, pick) && sent <= |Claimed(pick.pending)|
  }

  function Step(s: Inbox, e: Event): Inbox
    requires Enabled(s, e)
  {
    match e
    case Arrive(identity) => s.(handlers := s.handlers + [Handler(identity, Arrived)])
    case Insert(i, at) =>
      var h := s.handlers[i];
      var next := if Stores(s.rows, h.identity) then Answered(AlreadyProcessed) else Inserted(at);
      s.(handlers := s.handlers[i := h.(stage := next)])
    case Commit(i, ok, reached) =>
      var h := s.handlers[i];
      s.(rows := if reached then s.rows[i := Row(h.identity, h.stage.at, Received, 0, false)] else s.rows,
         handlers := s.handlers[i := h.(stage := if ok then Stored else Answered(ServerError))])
    case Enqueue(i, reached) =>
      s.(jobs := if reached then s.jobs + {i} else s.jobs,
         handlers := s.handlers[i := s.handlers[i].(stage := Answered(Ok))])
    case Crash(i) => s.(handlers := s.handlers[i := s.handlers[i].(stage := Crashed)])
    case Work(id, row, done) => s.(rows := s.rows[id := row], jobs := if done then s.jobs - {id} else s.jobs)
    case Sweep(pick, sent) =>
      s.(rows := Reclaimed(s.rows, pick.stale), jobs := s.jobs + Ids(Claimed(pick.pending)[..sent]))
  }

  ghost predicate Runs(s: Inbox, events: seq<Event>)
    decreases |events|
  {
    events == [] || (Enabled(s, events[0]) && Runs(Step(s, events[0]), events[1..]))
  }

  function After(s: Inbox, events: seq<Event>): Inbox
    requires Runs(s, events)
    decreases |events|
  {
    if events == [] then s else After(Step(s, events[0]), events[1..])
  }

  // ------------------------------------------------------------------ invariant

  ghost predicate RowsNumbered(s: Inbox) {
    forall id :: id in s.rows ==> id < |s.handlers| && s.rows[id].identity == s.handlers[id].identity
                                  && s.handlers[id].stage != Arrived && !s.handlers[id].stage.Inserted?
  }

  ghost predicate OneRowEach(s: Inbox) {
    forall i, j :: i in s.rows && j in s.rows && s.rows[i].identity == s.rows[j].identity ==> i == j
  }

  ghost predicate OneHolderEach(s: Inbox) {
    && (forall i, j ::
          0 <= i < |s.handlers| && 0 <= j < |s.handlers| && s.handlers[i].stage.Inserted?
              && Holds(s.handlers[j], s.handlers[i].identity)
          ==> i == j)
    && (forall i :: 0 <= i < |s.handlers| && s.handlers[i].stage.Inserted? ==> !Stores(s.rows, s.handlers[i].identity))
  }

  ghost predicate AnswersKept(s: Inbox) {
    forall i :: 0 <= i < |s.handlers| ==>
      && (s.handlers[i].stage == Stored || s.handlers[i].stage == Answered(Ok) ==> i in s.rows)
      && (s.handlers[i].stage == Answered(AlreadyProcessed) ==> Stores(s.rows, s.handlers[i].identity))
  }

  ghost predicate Inv(s: Inbox) {
    && RowsNumbered(s) && OneRowEach(s) && OneHolderEach(s) && AnswersKept(s)
    && s.jobs <= s.rows.Keys
  }

  lemma StoresGrows(rows: map<nat, Row>, rows': map<nat, Row>, identity: Identity)
    requires Stores(rows, identity)
    requires forall id :: id in rows ==> id in rows' && rows'[id].identity == rows[id].identity
    ensures Stores(rows', identity)
  {
    var id :| id in rows && rows[id].identity == identity;
    assert id in rows' && rows'[id].identity == identity;
  }

  lemma ClaimedAreRows(rows: map<nat, Row>, p: Pick, sent: nat)
    requires Lists(rows, p) && sent <= |Claimed(p.pending)|
    ensures Ids(Claimed(p.pending)[..sent]) <= rows.Keys
  {
    forall id | id in Ids(Claimed(p.pending)[..sent]) ensures id in rows {
      var k :| 0 <= k < sent && Claimed(p.pending)[k] == id;
      assert p.pending[k] == id;
    }
  }

  /** Rows only ever gain: a commit adds the handler's own, a worker rewrites one in place. */
  lemma RowsAfter(s: Inbox, e: Event)
    requires Enabled(s, e) && RowsNumbered(s)
    ensures var s' := Step(s, e);
            && (forall id :: id in s.rows ==> id in s'.rows && s'.rows[id].identity == s.rows[id].identity)
            && (forall id :: id in s'.rows && id !in s.rows ==>
                  e.Commit? && id == e.i < |s.handlers| && s.handlers[id].stage.Inserted?
                  && s'.rows[id].identity == s.handlers[id].identity)
  {
    hide Blocked, Stores, Selects;
  }

  /** A handler keeps its identity; once past its insert it never returns to it. */
  lemma HandlersAfter(s: Inbox, e: Event, i: nat)
    requires Enabled(s, e) && i < |s.handlers|
    ensures var h, s' := s.handlers[i], Step(s, e);
            && i < |s'.handlers| && s'.handlers[i].identity == h.identity
            && (h.stage != Arrived && !h.stage.Inserted? ==>
                  s'.handlers[i].stage != Arrived && !s'.handlers[i].stage.Inserted?)
            && (e.Commit? && i == e.i ==> s'.handlers[i].stage != Arrived && !s'.handlers[i].stage.Inserted?)
  {
    hide Blocked, Stores, Selects;
  }

  lemma StepNumbered(s: Inbox, e: Event)
    requires Enabled(s, e) && Inv(s)
    ensures RowsNumbered(Step(s, e))
  {
    hide Step, OneRowEach, OneHolderEach, AnswersKept, Blocked, Selects;
    RowsAfter(s, e);
    var s' := Step(s, e);
    forall id | id in s'.rows
      ensures id < |s'.handlers| && s'.rows[id].identity == s'.handlers[id].identity
              && s'.handlers[id].stage != Arrived && !s'.handlers[id].stage.Inserted?
    {
      HandlersAfter(s, e, id);
    }
  }

  lemma StepOneRow(s: Inbox, e: Event)
    requires Enabled(s, e) && Inv(s)
    ensures OneRowEach(Step(s, e))
  {
    RowsAfter(s, e);
    hide Step, RowsNumbered, AnswersKept, Blocked, Selects;
    forall id | id in s.rows
      ensures e.Commit? && s.handlers[e.i].stage.Inserted? ==> s.rows[id].identity != s.handlers[e.i].identity
    {
      if e.Commit? && s.handlers[e.i].stage.Inserted? {
        assert !Stores(s.rows, s.handlers[e.i].identity);
      }
    }
  }

  lemma StepJobs(s: Inbox, e: Event)
    requires Enabled(s, e) && Inv(s)
    ensures Step(s, e).jobs <= Step(s, e).rows.Keys
  {
    hide Blocked, Stores, OneRowEach, OneHolderEach, RowsNumbered;
    match e
    case Sweep(pick, sent) => ClaimedAreRows(Reclaimed(s.rows, pick.stale), pick, sent);
    case Enqueue(i, _) => assert i in s.rows;
    case _ =>
  }

  lemma StepHolders(s: Inbox, e: Event)
    requires Enabled(s, e) && Inv(s)
    ensures OneHolderEach(Step(s, e))
  {
    var s' := Step(s, e);
    hide Stores;
    forall i | 0 <= i < |s'.handlers| && s'.handlers[i].stage.Inserted?
      ensures !Stores(s'.rows, s'.handlers[i].identity)
    {
      NotStored(s, e, i);
    }
    if e.Insert? {
      assert forall j :: 0 <= j < |s.handlers| ==> !Holds(s.handlers[j], s.handlers[e.i].identity);
    }
  }

  lemma NotStored(s: Inbox, e: Event, i: nat)
    requires Enabled(s, e) && Inv(s)
    requires i < |Step(s, e).handlers| && Step(s, e).handlers[i].stage.Inserted?
    ensures !Stores(Step(s, e).rows, Step(s, e).handlers[i].identity)
  {
    hide Blocked;
    var s' := Step(s, e);
    var identity := s'.handlers[i].identity;
    if s.handlers[i].stage.Inserted? {
      assert Holds(s.handlers[i], identity);
      assert !Stores(s.rows, identity);
    }
  }

  lemma StepAnswers(s: Inbox, e: Event)
    requires Enabled(s, e) && Inv(s)
    ensures AnswersKept(Step(s, e))
  {
    hide Stores, Blocked, OneRowEach, OneHolderEach, RowsNumbered, Selects;
    var s' := Step(s, e);
    RowsAfter(s, e);
    forall i | 0 <= i < |s'.handlers| && s'.handlers[i].stage == Answered(AlreadyProcessed)
      ensures Stores(s'.rows, s'.handlers[i].identity)
    {
      StoresGrows(s.rows, s'.rows, s'.handlers[i].identity);
    }
  }

  lemma StepInv(s: Inbox, e: Event)
    requires Enabled(s, e) && Inv(s)
    ensures Inv(Step(s, e))
  {
    StepNumbered(s, e);
    StepOneRow(s, e);
    StepJobs(s, e);
    StepHolders(s, e);
    StepAnswers(s, e);
    hide Step, Enabled, RowsNumbered, OneRowEach, OneHolderEach, AnswersKept;
  }

  lemma {:induction false} RunInv(s: Inbox, events: seq<Event>)
    requires Inv(s) && Runs(s, events)
    ensures Inv(After(s, events))
    decreases |events|
  {
    hide Inv, Enabled, Step;
    if events != [] {
      StepInv(s, events[0]);
      RunInv(Step(s, events[0]), events[1..]);
    }
  }

  // ------------------------------------------------------------------ what the inbox promises

  /** In every run: one row per identity, every job names a committed row, and every "ok" and
      "already_processed" answer has a durable row of its identity. */
  lemma InboxPromises(events: seq<Event>)
    requires Runs(START, events)
    ensures var s := After(START, events);
            && (forall i, j :: i in s.rows && j in s.rows && s.rows[i].identity == s.rows[j].identity ==> i == j)
            && (forall id :: id in s.jobs ==> id in s.rows)
            && (forall i :: 0 <= i < |s.handlers| && s.handlers[i].stage in {Answered(Ok), Answered(AlreadyProcessed)}
                  ==> Stores(s.rows, s.handlers[i].identity))
  {
    RunInv(START, events);
    var s := After(START, events);
    forall i | 0 <= i < |s.handlers| && s.handlers[i].stage == Answered(Ok)
      ensures Stores(s.rows, s.handlers[i].identity)
    {
      assert i in s.rows && s.rows[i].identity == s.handlers[i].identity;
    }
  }

  /** A sweep that meets no failure. */
  function FullSweep(p: Pick): Event {
    Sweep(p, |Claimed(p.pending)|)
  }

  /** The row is among the oldest 100 of the list. */
  ghost predicate AmongFirst(pending: seq<nat>, id: nat) {
    exists k :: 0 <= k < |pending| && k < 100 && pending[k] == id
  }

  /** The sweep may look at this row: it is not parked, or parked rows are included, and no live
      worker has it locked. */
  predicate Visible(row: Row, id: nat, p: Pick) {
    (p.deferredToo || !row.deferred) && id !in p.locked
  }

  /** What one full sweep does to any received row of the table. */
  lemma SweepQueues(s: Inbox, p: Pick, id: nat)
    requires Selects(s.rows, p) && id in s.rows && s.rows[id].status == Received
    ensures id in Step(s, FullSweep(p)).jobs
            <==> id in s.jobs || (Visible(s.rows[id], id, p) && AmongFirst(p.pending, id))
  {
    assert id in p.pending <==> Visible(s.rows[id], id, p);
    SweepQueuesListed(s, p, id);
  }

  /** What it does to a failed row: it queues it again, while it has retries left. */
  lemma SweepRetriesFailed(s: Inbox, p: Pick, id: nat)
    requires Selects(s.rows, p) && id in s.rows && s.rows[id].status == Failed
    ensures id in Step(s, FullSweep(p)).jobs
            <==> id in s.jobs || (s.rows[id].retries < 5 && id !in p.locked && AmongFirst(p.pending, id))
    ensures Step(s, FullSweep(p)).rows[id] == s.rows[id]
  {
    assert id in p.pending <==> s.rows[id].retries < 5 && id !in p.locked;
    SweepQueuesListed(s, p, id);
  }

  /** What it does to a row in processing: nothing unless it is abandoned; an abandoned row fails,
      counts a retry, and is queued again in the same sweep while it has retries left. */
  lemma SweepReclaims(s: Inbox, p: Pick, id: nat)
    requires Selects(s.rows, p) && id in s.rows && s.rows[id].status == Processing
    ensures id in Step(s, FullSweep(p)).jobs
            <==> id in s.jobs || (id in p.stale && s.rows[id].retries + 1 < 5 && AmongFirst(p.pending, id))
    ensures Step(s, FullSweep(p)).rows[id]
            == if id in p.stale then s.rows[id].(status := Failed, retries := s.rows[id].retries + 1) else s.rows[id]
  {
    assert id in p.pending <==> id in p.stale && s.rows[id].retries + 1 < 5;
    SweepQueuesListed(s, p, id);
  }

  /** And to any other row: nothing; a processed row is never queued. */
  lemma SweepSparesOthers(s: Inbox, p: Pick, id: nat)
    requires Selects(s.rows, p)
    ensures Step(s, FullSweep(p)).rows.Keys == s.rows.Keys
    ensures id in s.rows && s.rows[id].status in {Received, Processed} ==> Step(s, FullSweep(p)).rows[id] == s.rows[id]
    ensures (id in s.rows ==> s.rows[id].status == Processed) ==>
              (id in Step(s, FullSweep(p)).jobs <==> id in s.jobs)
  {
    SweepQueuesListed(s, p, id);
  }

  /** It queues exactly the first hundred of the list. */
  lemma SweepQueuesListed(s: Inbox, p: Pick, id: nat)
    requires Selects(s.rows, p)
    ensures id in Step(s, FullSweep(p)).jobs <==> id in s.jobs || AmongFirst(p.pending, id)
  {
    var claimed := Claimed(p.pending);
    assert claimed[..|claimed|] == claimed;
    if k :| 0 <= k < |p.pending| && k < SWEEP_BATCH && p.pending[k] == id {
      assert claimed[k] == id;
    } else {
      assert forall k :: 0 <= k < |claimed| ==> claimed[k] == p.pending[k] != id;
    }
  }

  /** One full sweep leaves no received row of the table un-queued if and only if every received
      row not yet queued is neither parked (or parked rows are included), nor locked, nor behind
      the oldest 100 of the list. */
  lemma SweepQueuesAll(s: Inbox, p: Pick)
    requires Selects(s.rows, p)
    ensures (forall id :: id in s.rows && s.rows[id].status == Received ==> id in Step(s, FullSweep(p)).jobs)
            <==> (forall id :: id in s.rows && s.rows[id].status == Received && id !in s.jobs ==>
                    Visible(s.rows[id], id, p) && AmongFirst(p.pending, id))
  {
    hide Step, Selects, Visible, AmongFirst;
    forall id | id in s.rows && s.rows[id].status == Received
      ensures id in Step(s, FullSweep(p)).jobs
              <==> id in s.jobs || (Visible(s.rows[id], id, p) && AmongFirst(p.pending, id))
    {
      SweepQueues(s, p, id);
    }
  }

  /** In particular at most 100 pending rows, none received parked or locked, are all queued. */
  lemma SmallBacklogIsQueued(s: Inbox, p: Pick)
    requires Selects(s.rows, p) && |p.pending| <= SWEEP_BATCH
    requires forall id :: id in s.rows && s.rows[id].status == Received ==> Visible(s.rows[id], id, p)
    ensures forall id :: id in s.rows && s.rows[id].status == Received ==> id in Step(s, FullSweep(p)).jobs
  {
    hide Step;
    forall id | id in s.rows && s.rows[id].status == Received ensures id in Step(s, FullSweep(p)).jobs {
      assert id in p.pending;
      var k :| 0 <= k < |p.pending| && p.pending[k] == id;
      assert AmongFirst(p.pending, id);
      SweepQueues(s, p, id);
    }
  }

  // ------------------------------------------------------------------ one handler, uninterrupted

  lemma RunsCons(s: Inbox, e: Event, events: seq<Event>)
    requires Enabled(s, e) && Runs(Step(s, e), events)
    ensures Runs(s, [e] + events) && After(s, [e] + events) == After(Step(s, e), events)
  {
    assert ([e] + events)[1..] == events;
  }

  lemma {:induction false} RunsConcat(s: Inbox, first: seq<Event>, rest: seq<Event>)
    requires Runs(s, first) && Runs(After(s, first), rest)
    ensures Runs(s, first + rest) && After(s, first + rest) == After(After(s, first), rest)
    decreases |first|
  {
    hide Enabled, Step;
    if first == [] {
      assert first + rest == rest;
    } else {
      RunsConcat(Step(s, first[0]), first[1..], rest);
      assert (first + rest)[1..] == first[1..] + rest;
    }
  }

  lemma RunsTwo(s: Inbox, e1: Event, e2: Event)
    requires Enabled(s, e1) && Enabled(Step(s, e1), e2)
    ensures Runs(s, [e1, e2]) && After(s, [e1, e2]) == Step(Step(s, e1), e2)
  {
    assert Runs(Step(Step(s, e1), e2), []);
    RunsCons(Step(s, e1), e2, []);
    assert [e2] + [] == [e2];
    RunsCons(s, e1, [e2]);
    assert [e1] + [e2] == [e1, e2];
  }

  /** The commit of a handler, and the hand-off when it was acknowledged. */
  function Closing(n: nat, commit: Attempt, handed: bool): seq<Event> {
    if commit.ok then [Commit(n, true, true), Enqueue(n, handed)] else [Commit(n, false, commit.reached)]
  }

  /** The steps of a handler: insert, commit, enqueue, stopping where the source stops. */
  function Script(s: Inbox, identity: Identity, at: int, commit: Attempt, handed: bool): seq<Event> {
    var n := |s.handlers|;
    [Arrive(identity), Insert(n, at)] + (if Stores(s.rows, identity) then [] else Closing(n, commit, handed))
  }

  /** Where an uninterrupted handler leaves things. */
  function Outcome(s: Inbox, identity: Identity, at: int, commit: Attempt, handed: bool): Inbox {
    var n := |s.handlers|;
    var answer := if Stores(s.rows, identity) then AlreadyProcessed else if commit.ok then Ok else ServerError;
    var handlers := s.handlers + [Handler(identity, Answered(answer))];
    if Stores(s.rows, identity) then s.(handlers := handlers)
    else
      s.(rows := if commit.reached then s.rows[n := Row(identity, at, Received, 0, false)] else s.rows,
         jobs := if commit.ok && handed then s.jobs + {n} else s.jobs,
         handlers := handlers)
  }

  function Opened(s: Inbox, identity: Identity, at: int): Inbox {
    var stage := if Stores(s.rows, identity) then Answered(AlreadyProcessed) else Inserted(at);
    s.(handlers := s.handlers + [Handler(identity, stage)])
  }

  lemma OpeningRuns(s: Inbox, identity: Identity, at: int)
    requires !Blocked(s.handlers, identity)
    ensures var events := [Arrive(identity), Insert(|s.handlers|, at)];
            Runs(s, events) && After(s, events) == Opened(s, identity, at)
  {
    hide Stores;
    var s1 := Step(s, Arrive(identity));
    assert !Blocked(s1.handlers, identity);
    RunsTwo(s, Arrive(identity), Insert(|s.handlers|, at));
  }

  lemma ClosingRuns(s: Inbox, identity: Identity, at: int, commit: Attempt, handed: bool)
    requires !Stores(s.rows, identity) && (commit.ok ==> commit.reached)
    ensures var n, t := |s.handlers|, Opened(s, identity, at);
            && Runs(t, Closing(n, commit, handed))
            && After(t, Closing(n, commit, handed)) == Outcome(s, identity, at, commit, handed)
  {
    hide Stores, Blocked;
    var n, t := |s.handlers|, Opened(s, identity, at);
    if commit.ok {
      RunsTwo(t, Commit(n, true, true), Enqueue(n, handed));
    } else {
      var last := Step(t, Commit(n, false, commit.reached));
      assert Runs(last, []);
      RunsCons(t, Commit(n, false, commit.reached), []);
      assert [Commit(n, false, commit.reached)] + [] == [Commit(n, false, commit.reached)];
    }
  }

  lemma ScriptRuns(s: Inbox, identity: Identity, at: int, commit: Attempt, handed: bool)
    requires !Blocked(s.handlers, identity) && (commit.ok ==> commit.reached)
    ensures Runs(s, Script(s, identity, at, commit, handed))
    ensures After(s, Script(s, identity, at, commit, handed)) == Outcome(s, identity, at, commit, handed)
  {
    hide Stores, Blocked, Runs, After;
    var n := |s.handlers|;
    var start := [Arrive(identity), Insert(n, at)];
    OpeningRuns(s, identity, at);
    if Stores(s.rows, identity) {
      assert start + [] == start;
    } else {
      ClosingRuns(s, identity, at, commit, handed);
      RunsConcat(s, start, Closing(n, commit, handed));
    }
  }

  /** The table and the queue, as one handler sees them. */
  class Service {
    var rows: map<nat, Row>
    var jobs: set<nat>
    var handlers: seq<Handler>

    function View(): Inbox
      reads this
    {
      Inbox(rows, jobs, handlers)
    }

    constructor ()
      ensures View() == START
    {
      rows, jobs, handlers := map[], {}, [];
    }

    /** The unique index: does any committed row carry this identity? */
    method Find(identity: Identity) returns (found: bool)
      ensures found == Stores(rows, identity)
    {
      var ids := rows.Keys;
      found := false;
      while ids != {}
        invariant ids <= rows.Keys
        invariant !found && forall id :: id in rows && id !in ids ==> rows[id].identity != identity
        decreases |ids|
      {
        var id :| id in ids;
        if rows[id].identity == identity { return true; }
        ids := ids - {id};
      }
    }

    /** The end of `lemon_webhook` and of `razorpay_webhook`, given what their environment
        does, from the moment no other transaction holds the identity (until then the insert
        waits): insert the row, commit, enqueue. */
    method Store(identity: Identity, at: int, commit: Attempt, handed: bool) returns (answer: Answer)
      requires !Blocked(handlers, identity) && (commit.ok ==> commit.reached)
      modifies this
      ensures Runs(old(View()), Script(old(View()), identity, at, commit, handed))
      ensures View() == After(old(View()), Script(old(View()), identity, at, commit, handed))
      ensures answer == if old(Stores(rows, identity)) then AlreadyProcessed else if commit.ok then Ok else ServerError
      ensures answer in {Ok, AlreadyProcessed} ==> Stores(rows, identity)
      ensures |handlers| == |old(handlers)| + 1
              && handlers[|old(handlers)|] == Handler(identity, Answered(answer))
      ensures jobs == if answer == Ok && handed then old(jobs) + {|old(handlers)|} else old(jobs)
    {
      hide Runs, After, Blocked, Script, Stores;
      ScriptRuns(View(), identity, at, commit, handed);
      var n := |handlers|;
      var duplicate := Find(identity);
      if duplicate {
        handlers := handlers + [Handler(identity, Answered(AlreadyProcessed))];
        return AlreadyProcessed;
      }
      if commit.reached {
        rows := rows[n := Row(identity, at, Received, 0, false)];
        StoredNow(rows, n);
      }
      if !commit.ok {
        handlers := handlers + [Handler(identity, Answered(ServerError))];
        return ServerError;
      }
      if handed {
        jobs := jobs + {n};
      }
      handlers := handlers + [Handler(identity, Answered(Ok))];
      return Ok;
    }
  }

  lemma StoredNow(rows: map<nat, Row>, id: nat)
    requires id in rows
    ensures Stores(rows, rows[id].identity)
  {}

  // ------------------------------------------------------------------ a backlog of 101

  function Name(i: nat): Identity {
    Identity("razorpay", "payment_link.paid", seq(i, _ => 'x'), "")
  }

  lemma NamesDiffer(i: nat, j: nat)
    requires Name(i) == Name(j)
    ensures i == j
  {
    assert |Name(i).objectId| == i && |Name(j).objectId| == j;
  }

  /** `n` deliveries whose rows commit while the queue is down. */
  function Outage(n: nat): Inbox {
    Inbox(map i: nat | i < n :: Row(Name(i), i, Received, 0, false), {},
          seq(n, i requires 0 <= i < n => Handler(Name(i), Answered(Ok))))
  }

  ghost function OutageEvents(n: nat): seq<Event> {
    if n == 0 then []
    else OutageEvents(n - 1) + Script(Outage(n - 1), Name(n - 1), n - 1, Attempt(true, true), false)
  }

  lemma OutageIsOpen(n: nat)
    ensures !Stores(Outage(n).rows, Name(n)) && !Blocked(Outage(n).handlers, Name(n))
  {
    var s := Outage(n);
    forall id | id in s.rows ensures s.rows[id].identity != Name(n) {
      if Name(id) == Name(n) { NamesDiffer(id, n); }
    }
  }

  lemma OutageGrows(n: nat)
    requires !Stores(Outage(n).rows, Name(n))
    ensures Outcome(Outage(n), Name(n), n, Attempt(true, true), false) == Outage(n + 1)
  {
    hide Name, Stores;
  }

  lemma {:induction false} OutageHappens(n: nat)
    ensures Runs(START, OutageEvents(n)) && After(START, OutageEvents(n)) == Outage(n)
  {
    if n > 0 {
      OutageHappens(n - 1);
      OutageIsOpen(n - 1);
      OutageGrows(n - 1);
      hide Name, Runs, After, Script, Outage, Outcome, Stores, Blocked;
      var s := Outage(n - 1);
      ScriptRuns(s, Name(n - 1), n - 1, Attempt(true, true), false);
      RunsConcat(START, OutageEvents(n - 1), Script(s, Name(n - 1), n - 1, Attempt(true, true), false));
    }
  }

  /** A received row that this full sweep does not queue. */
  ghost predicate Missed(s: Inbox, p: Pick, id: nat) {
    && Selects(s.rows, p) && id in s.rows && s.rows[id].status == Received
    && id !in Step(s, FullSweep(p)).jobs
  }

  /** The batch is a real limit.  Runs exist after which `n` rows wait un-queued, for any n; and
      after a sweep that meets no failure, those from the 101st on are still un-queued. */
  lemma SweepLeavesRowsBehind(n: nat, id: nat)
    requires SWEEP_BATCH <= id < n
    ensures Runs(START, OutageEvents(n)) && After(START, OutageEvents(n)) == Outage(n)
    ensures Missed(Outage(n), Pick(false, {}, {}, Upto(n)), id)
  {
    OutageHappens(n);
    hide Runs, After, OutageEvents, Name;
    var s, p := Outage(n), Pick(false, {}, {}, Upto(n));
    assert Reclaimed(s.rows, {}) == s.rows;
    forall k: nat | k in s.rows ensures k in p.pending {
      assert p.pending[k] == k;
    }
    SweepQueues(s, p, id);
  }

  function Upto(n: nat): seq<nat> {
    seq(n, i requires 0 <= i < n => i)
  }

  // ------------------------------------------------------------------ a parked row

  /** One delivery stored and queued, whose worker parks it until its grant lands. */
  function Parked(identity: Identity, at: int): Inbox {
    Inbox(map[0 := Row(identity, at, Received, 0, true)], {}, [Handler(identity, Answered(Ok))])
  }

  function ParkingEvents(identity: Identity, at: int): seq<Event> {
    Script(START, identity, at, Attempt(true, true), true) + [Work(0, Row(identity, at, Received, 0, true), true)]
  }

  /** A reachable received row that no 60-second sweep queues, however short the list; the
      reconciliation, which includes parked rows, queues it. */
  lemma ParkedRowWaits(identity: Identity, at: int)
    ensures Runs(START, ParkingEvents(identity, at))
    ensures After(START, ParkingEvents(identity, at)) == Parked(identity, at)
    ensures Missed(Parked(identity, at), Pick(false, {}, {}, []), 0)
    ensures var s, p := Parked(identity, at), Pick(true, {}, {}, [0]);
            Selects(s.rows, p) && 0 in Step(s, FullSweep(p)).jobs
  {
    var stored := Outcome(START, identity, at, Attempt(true, true), true);
    var work := Work(0, Row(identity, at, Received, 0, true), true);
    assert Step(stored, work) == Parked(identity, at);
    RunsNone(Parked(identity, at));
    RunsCons(stored, work, []);
    assert [work] + [] == [work];
    ScriptRuns(START, identity, at, Attempt(true, true), true);
    RunsConcat(START, Script(START, identity, at, Attempt(true, true), true), [work]);
    hide Runs, After, Script;
    var s := Parked(identity, at);
    assert Reclaimed(s.rows, {}) == s.rows;
    SweepQueues(s, Pick(false, {}, {}, []), 0);
    assert [0][0] == 0;
    SweepQueues(s, Pick(true, {}, {}, [0]), 0);
  }

  lemma RunsNone(s: Inbox)
    ensures Runs(s, []) && After(s, []) == s
  {}
}
