/** Cancelling a stage generation: the row of the run, its lock, the transactions that write it,
    and the Redis marker that outlives the run's deadline.  Times are microseconds. */
module Cancellation {
  import opened Options
  import opened Attempts

  datatype Status = Running | Succeeded | Blocked | Cancelled | TimedOut | Failed

  datatype Phase = Working | Stopping | Complete

  datatype Row = Row(status: Status, phase: Phase, cancelRequestedAt: Option<int>, heartbeatAt: int, updatedAt: int,
                     finishedAt: Option<int>, deadlineAt: int)

  const SECOND := 1_000_000

  // ------------------------------------------------------------------ what each transaction writes

  datatype Refusal = StaleId | AlreadySucceeded | NotActive

  datatype Reply = Refused(why: Refusal) | Shows(row: Row)

  /** The row after a cancel request that found it under its lock. */
  function CancelRow(row: Row, now: int): Row {
    if row.status == Running && row.cancelRequestedAt.None?
    then row.(cancelRequestedAt := Some(now), phase := Stopping, heartbeatAt := now, updatedAt := now)
    else row
  }

  function CancelReply(row: Row, now: int): Reply {
    if row.status == Cancelled || row.status == Running then Shows(CancelRow(row, now))
    else Refused(if row.status == Succeeded then AlreadySucceeded else NotActive)
  }

  /** The worker's normal end: only while running, not asked to stop, and in time. */
  function FinishRow(row: Row, status: Status, now: int): Row {
    if row.status == Running && row.cancelRequestedAt.None? && now < row.deadlineAt
    then Terminal(row, status, now) else row
  }

  /** The settlement of an interrupted run: only while running. */
  function InterruptRow(row: Row, status: Status, now: int): Row {
    if row.status == Running then Terminal(row, status, now) else row
  }

  function Terminal(row: Row, status: Status, now: int): Row {
    row.(status := status, phase := Complete, finishedAt := Some(now), heartbeatAt := now, updatedAt := now)
  }

  /** `int(seconds)`, which truncates toward zero. */
  function WholeSeconds(us: int): int {
    if us >= 0 then us / SECOND else -((-us) / SECOND)
  }

  /** How long the marker lives, in seconds. */
  function MarkerTtl(deadlineAt: int, now: int): int {
    var t := WholeSeconds(deadlineAt - now) + 60;
    if t < 60 then 60 else t
  }

  /** A marker stored at `at`, no earlier than the clock reading its life was computed from,
      expires after the deadline. */
  lemma MarkerOutlivesDeadline(deadlineAt: int, now: int, at: int)
    requires now <= at
    ensures at + MarkerTtl(deadlineAt, now) * SECOND > deadlineAt
  {
    var d := deadlineAt - now;
    assert d >= 0 ==> d < (d / SECOND + 1) * SECOND;
  }

  /** And not much later: a run that still has time is marked until between 59 and 60 seconds after
      its deadline, one that has none for a minute. */
  lemma MarkerLife(deadlineAt: int, now: int)
    ensures var expires := now + MarkerTtl(deadlineAt, now) * 1_000_000;
            && (now <= deadlineAt ==> deadlineAt + 59_000_000 < expires <= deadlineAt + 60_000_000)
            && (deadlineAt < now ==> expires == now + 60_000_000)
  {
    var d := deadlineAt - now;
    assert d >= 0 ==> d / SECOND * SECOND <= d < (d / SECOND + 1) * SECOND;
  }

  // ------------------------------------------------------------------ interleavings

  datatype Kind = CancelRequest | Finish(status: Status) | Interrupt(status: Status)

  /** Marking: the cancel was accepted and its marker is still to be set. */
  datatype Stage = Waiting | Locked | Marking | Done | Crashed

  /** `seen` is the row its SELECT ... FOR UPDATE returned. */
  datatype Tx = Tx(kind: Kind, stage: Stage, seen: Option<Row>, reply: Option<Reply>)

  /** `locking`: the SELECTs take the row lock, which `owner` holds.  `requested` logs every
      write of `cancel_requested_at`; `marker` is when the Redis marker expires. */
  datatype World = World(locking: bool, clock: int, row: Row, owner: Option<nat>, txs: seq<Tx>, requested: seq<int>,
                         marker: Option<int>)

  datatype Event =
    | Arrive(kind: Kind)
    | Lock(i: nat)
    | Write(i: nat, now: int, commit: Attempt)
    | Mark(i: nat, now: int, at: int, reached: bool)
    | Crash(i: nat)

  predicate LegalKind(kind: Kind) {
    match kind
    case CancelRequest => true
    case Finish(status) => status == Succeeded || status == Blocked
    case Interrupt(status) => status == Cancelled || status == TimedOut || status == Failed
  }

  predicate At(w: World, i: nat, stage: Stage) {
    i < |w.txs| && w.txs[i].stage == stage
  }

  predicate Enabled(w: World, e: Event) {
    match e
    case Arrive(kind) => LegalKind(kind)
    case Lock(i) => At(w, i, Waiting) && (w.locking ==> w.owner == None)
    case Write(i, now, commit) =>
      && At(w, i, Locked) && w.txs[i].seen.Some? && (w.locking ==> w.owner == Some(i))
      && w.clock <= now && (commit.ok ==> commit.reached)
    case Mark(i, now, at, _) => At(w, i, Marking) && w.clock <= now <= at
    case Crash(i) => i < |w.txs| && w.txs[i].stage != Done && w.txs[i].stage != Crashed
  }

  /** What a transaction wants the row it saw to become. */
  function Wanted(seen: Row, kind: Kind, now: int): Row {
    match kind
    case CancelRequest => CancelRow(seen, now)
    case Finish(status) => FinishRow(seen, status, now)
    case Interrupt(status) => InterruptRow(seen, status, now)
  }

  /** The UPDATE it issues: it sets the columns it changed and leaves the others as they are. */
  function Overwrite(current: Row, seen: Row, wanted: Row): Row {
    Row(if wanted.status != seen.status then wanted.status else current.status,
        if wanted.phase != seen.phase then wanted.phase else current.phase,
        if wanted.cancelRequestedAt != seen.cancelRequestedAt then wanted.cancelRequestedAt
        else current.cancelRequestedAt,
        if wanted.heartbeatAt != seen.heartbeatAt then wanted.heartbeatAt else current.heartbeatAt,
        if wanted.updatedAt != seen.updatedAt then wanted.updatedAt else current.updatedAt,
        if wanted.finishedAt != seen.finishedAt then wanted.finishedAt else current.finishedAt,
        current.deadlineAt)
  }

  /** A transaction that changes nothing commits nothing, and cannot fail to. */
  function Step(w: World, e: Event): World
    requires Enabled(w, e)
  {
    match e
    case Arrive(kind) => w.(txs := w.txs + [Tx(kind, Waiting, None, None)])
    case Lock(i) => w.(owner := Some(i), txs := w.txs[i := w.txs[i].(stage := Locked, seen := Some(w.row))])
    case Write(i, now, commit) =>
      var tx, seen := w.txs[i], w.txs[i].seen.value;
      var wanted := Wanted(seen, tx.kind, now);
      var lost := wanted != seen && !commit.ok;
      w.(clock := now, owner := None,
         row := if commit.reached then Overwrite(w.row, seen, wanted) else w.row,
         requested := if commit.reached && wanted.cancelRequestedAt != seen.cancelRequestedAt
                      then w.requested + [now] else w.requested,
         txs := w.txs[i := if tx.kind != CancelRequest || lost then tx.(stage := Done)
                           else tx.(stage := if seen.status == Running then Marking else Done,
                                    reply := Some(CancelReply(seen, now)))])
    case Mark(i, now, at, reached) =>
      w.(clock := at, marker := if reached then Some(at + MarkerTtl(w.row.deadlineAt, now) * SECOND) else w.marker,
         txs := w.txs[i := w.txs[i].(stage := Done)])
    case Crash(i) => w.(owner := if w.owner == Some(i) then None else w.owner,
                        txs := w.txs[i := w.txs[i].(stage := Crashed)])
  }

  predicate Runs(w: World, events: seq<Event>)
    decreases |events|
  {
    events == [] || (Enabled(w, events[0]) && Runs(Step(w, events[0]), events[1..]))
  }

  function After(w: World, events: seq<Event>): World
    requires Runs(w, events)
    decreases |events|
  {
    if events == [] then w else After(Step(w, events[0]), events[1..])
  }

  function Start(locking: bool, clock: int, deadlineAt: int): World {
    World(locking, clock, Row(Running, Working, None, clock, clock, None, deadlineAt), None, [], [], None)
  }

  /** What the lock is for: whoever holds it saw the row as it still is. */
  ghost predicate SeenIsCurrent(w: World) {
    && w.locking
    && forall i :: 0 <= i < |w.txs| && w.txs[i].stage == Locked ==> w.owner == Some(i) && w.txs[i].seen == Some(w.row)
  }

  /** What a row looks like: a running one is stopping from the moment it was asked to; a terminal
      one is complete since its last write; and one that succeeded did so before its deadline. */
  predicate RowShape(row: Row) {
    && (row.status == Running ==>
          && row.finishedAt == None
          && row.phase == (if row.cancelRequestedAt.Some? then Stopping else Working)
          && row.heartbeatAt == row.updatedAt
          && (row.cancelRequestedAt.Some? ==> row.cancelRequestedAt == Some(row.updatedAt)))
    && (row.status != Running ==>
          row.phase == Complete && row.finishedAt == Some(row.updatedAt) && row.heartbeatAt == row.updatedAt)
    && (row.status == Succeeded || row.status == Blocked ==> row.updatedAt < row.deadlineAt)
  }

  ghost predicate RowOk(w: World) {
    && w.requested == (if w.row.cancelRequestedAt.Some? then [w.row.cancelRequestedAt.value] else [])
    && (w.row.cancelRequestedAt.Some? ==> w.row.status != Succeeded && w.row.status != Blocked)
    && RowShape(w.row)
    && (w.marker.Some? ==> w.marker.value > w.row.deadlineAt)
    && (forall i :: 0 <= i < |w.txs| ==> LegalKind(w.txs[i].kind))
  }

  /** Whoever was shown the run was shown the request time the row has, and none before a
      request unless the run was already cancelled. */
  ghost predicate RepliesAgree(w: World) {
    forall i :: 0 <= i < |w.txs| && w.txs[i].reply.Some? && w.txs[i].reply.value.Shows? ==>
      var shown := w.txs[i].reply.value.row;
      && shown.cancelRequestedAt == w.row.cancelRequestedAt
      && (shown.cancelRequestedAt.Some? || w.row.status != Running)
  }

  ghost predicate Inv(w: World) {
    SeenIsCurrent(w) && RowOk(w) && RepliesAgree(w)
  }

  /** What one step can do to the row. */
  ghost predicate Follows(row: Row, row': Row) {
    && (row.status != Running ==> row' == row)
    && (row.cancelRequestedAt.Some? ==>
          || row' == row
          || (row'.cancelRequestedAt == row.cancelRequestedAt && row'.status != Succeeded && row'.status != Blocked))
    && row'.deadlineAt == row.deadlineAt
  }

  /** Under the lock the UPDATE leaves exactly the row its transaction wanted. */
  lemma LockedWrite(w: World, e: Event)
    requires e.Write? && SeenIsCurrent(w) && Enabled(w, e)
    ensures w.txs[e.i].seen == Some(w.row)
    ensures Step(w, e).row == if e.commit.reached then Wanted(w.row, w.txs[e.i].kind, e.now) else w.row
  {}

  lemma StepSeen(w: World, e: Event)
    requires SeenIsCurrent(w) && Enabled(w, e)
    ensures SeenIsCurrent(Step(w, e))
  {}

  lemma StepRow(w: World, e: Event)
    requires SeenIsCurrent(w) && RowOk(w) && Enabled(w, e)
    ensures RowOk(Step(w, e)) && Follows(w.row, Step(w, e).row)
  {
    if e.Mark? {
      MarkerOutlivesDeadline(w.row.deadlineAt, e.now, e.at);
    }
    if e.Write? {
      LockedWrite(w, e);
    }
    hide MarkerTtl, Overwrite;
  }

  lemma StepReplies(w: World, e: Event)
    requires SeenIsCurrent(w) && RepliesAgree(w) && Enabled(w, e)
    ensures RepliesAgree(Step(w, e))
  {
    if e.Write? {
      LockedWrite(w, e);
    }
    hide MarkerTtl, Overwrite;
  }

  lemma StepInv(w: World, e: Event)
    requires Inv(w) && Enabled(w, e)
    ensures Inv(Step(w, e)) && Follows(w.row, Step(w, e).row)
  {
    StepSeen(w, e);
    StepRow(w, e);
    StepReplies(w, e);
    hide Step, Enabled, SeenIsCurrent, RowOk, RepliesAgree, Follows;
  }

  lemma {:induction false} RunInv(w: World, events: seq<Event>)
    requires Inv(w) && Runs(w, events)
    ensures Inv(After(w, events)) && Follows(w.row, After(w, events).row)
    decreases |events|
  {
    hide Inv, Step, Enabled;
    if events != [] {
      StepInv(w, events[0]);
      RunInv(Step(w, events[0]), events[1..]);
    }
  }

  lemma {:induction false} RunsConcat(w: World, first: seq<Event>, rest: seq<Event>)
    requires Runs(w, first + rest)
    ensures Runs(w, first) && Runs(After(w, first), rest) && After(After(w, first), rest) == After(w, first + rest)
    decreases |first|
  {
    hide Step, Enabled;
    if first == [] {
      assert first + rest == rest;
    } else {
      assert (first + rest)[1..] == first[1..] + rest;
      RunsConcat(Step(w, first[0]), first[1..], rest);
    }
  }

  /** Over every interleaving in which a transaction reads the row under its lock and writes it
      later: `cancel_requested_at` is written at most once and never changes again; a run once
      terminal is never altered; a run asked to stop never succeeds; and whenever the marker is
      set it expires after the run's deadline. */
  lemma CancellationIsSafe(clock: int, deadlineAt: int, first: seq<Event>, rest: seq<Event>)
    requires Runs(Start(true, clock, deadlineAt), first + rest)
    ensures Runs(Start(true, clock, deadlineAt), first)
    ensures var w0 := Start(true, clock, deadlineAt);
            var w, w' := After(w0, first), After(w0, first + rest);
            && |w'.requested| <= 1
            && (w.row.cancelRequestedAt.Some? ==> w'.row.cancelRequestedAt == w.row.cancelRequestedAt)
            && (w.row.status != Running ==> w'.row == w.row)
            && (w.row.cancelRequestedAt.Some? ==> w'.row.status != Succeeded && w'.row.status != Blocked)
            && (w'.marker.Some? ==> w'.marker.value > deadlineAt)
  {
    RunsConcat(Start(true, clock, deadlineAt), first, rest);
    RunInv(Start(true, clock, deadlineAt), first);
    RunInv(After(Start(true, clock, deadlineAt), first), rest);
  }

  /** Over every interleaving the row keeps its shape: in particular no run succeeds at or after its
      deadline. */
  lemma RowKeepsShape(clock: int, deadlineAt: int, events: seq<Event>)
    requires Runs(Start(true, clock, deadlineAt), events)
    ensures RowShape(After(Start(true, clock, deadlineAt), events).row)
  {
    RunInv(Start(true, clock, deadlineAt), events);
  }

  /** Repeats are idempotent: over every interleaving all cancel requests that are shown the run
      are shown one and the same request time, the one the row has in the end. */
  lemma RepeatsAgree(clock: int, deadlineAt: int, events: seq<Event>, i: nat, j: nat)
    requires Runs(Start(true, clock, deadlineAt), events)
    requires var txs := After(Start(true, clock, deadlineAt), events).txs;
             && i < |txs| && txs[i].reply.Some? && txs[i].reply.value.Shows?
             && j < |txs| && txs[j].reply.Some? && txs[j].reply.value.Shows?
    ensures var w := After(Start(true, clock, deadlineAt), events);
            w.txs[i].reply.value.row.cancelRequestedAt == w.txs[j].reply.value.row.cancelRequestedAt
            == w.row.cancelRequestedAt
  {
    RunInv(Start(true, clock, deadlineAt), events);
  }

  lemma RunsCons(w: World, e: Event, events: seq<Event>)
    requires Enabled(w, e) && Runs(Step(w, e), events)
    ensures Runs(w, [e] + events) && After(w, [e] + events) == After(Step(w, e), events)
  {
    assert ([e] + events)[1..] == events;
  }

  lemma RunsNone(w: World)
    ensures Runs(w, []) && After(w, []) == w
  {}

  const YES := Attempt(true, true)

  // ------------------------------------------------------------------ a whole cancellation

  /** A cancel request and its marker, then the worker that stops. */
  function CancelAndStop(now: int): seq<Event> {
    [Arrive(CancelRequest)] + ([Lock(0)] + ([Write(0, now, YES)] + ([Mark(0, now, now, true)]
    + ([Arrive(Interrupt(Cancelled))] + ([Lock(1)] + ([Write(1, now, YES)] + []))))))
  }

  /** A request does stop a run: it is cancelled, the time of the request stays, the marker is set,
      and a later request, which changes nothing and so has no commit to lose, is shown the run. */
  lemma CancelCompletes(clock: int, deadlineAt: int)
    ensures var w0, events := Start(true, clock, deadlineAt), CancelAndStop(clock);
            && Runs(w0, events)
            && var w := After(w0, events);
               && w.row.status == Cancelled && w.row.cancelRequestedAt == Some(clock) && w.marker.Some?
               && w.owner == None && |w.txs| == 2 && w.txs[0].reply.Some? && w.txs[0].reply.value.Shows?
               && CancelReply(w.row, clock) == Shows(w.row) && CancelRow(w.row, clock) == w.row
  {
    hide MarkerTtl;
    var w0 := Start(true, clock, deadlineAt);
    var w1 := Step(w0, Arrive(CancelRequest));
    var w2 := Step(w1, Lock(0));
    var w3 := Step(w2, Write(0, clock, YES));
    var w4 := Step(w3, Mark(0, clock, clock, true));
    var w5 := Step(w4, Arrive(Interrupt(Cancelled)));
    var w6 := Step(w5, Lock(1));
    var w7 := Step(w6, Write(1, clock, YES));
    hide Runs, After, Step;
    RunsNone(w7);
    RunsCons(w6, Write(1, clock, YES), []);
    RunsCons(w5, Lock(1), [Write(1, clock, YES)] + []);
    RunsCons(w4, Arrive(Interrupt(Cancelled)), [Lock(1)] + ([Write(1, clock, YES)] + []));
    RunsCons(w3, Mark(0, clock, clock, true),
             [Arrive(Interrupt(Cancelled))] + ([Lock(1)] + ([Write(1, clock, YES)] + [])));
    RunsCons(w2, Write(0, clock, YES), [Mark(0, clock, clock, true)]
             + ([Arrive(Interrupt(Cancelled))] + ([Lock(1)] + ([Write(1, clock, YES)] + []))));
    RunsCons(w1, Lock(0), [Write(0, clock, YES)] + ([Mark(0, clock, clock, true)]
             + ([Arrive(Interrupt(Cancelled))] + ([Lock(1)] + ([Write(1, clock, YES)] + [])))));
    RunsCons(w0, Arrive(CancelRequest), [Lock(0)] + ([Write(0, clock, YES)] + ([Mark(0, clock, clock, true)]
             + ([Arrive(Interrupt(Cancelled))] + ([Lock(1)] + ([Write(1, clock, YES)] + []))))));
  }

  /** A handler may die holding the lock; its transaction is rolled back and the lock is free. */
  lemma CrashFreesLock(w: World, i: nat)
    requires SeenIsCurrent(w) && At(w, i, Locked)
    ensures Enabled(w, Crash(i))
    ensures Step(w, Crash(i)).owner == None && Step(w, Crash(i)).row == w.row
  {}

  // ------------------------------------------------------------------ without the lock

  /** Two transactions that both read the row before either writes it. */
  function Race(first: Kind, second: Kind, t1: int, t2: int): seq<Event> {
    [Arrive(first)] + ([Arrive(second)] + ([Lock(0)]
    + ([Lock(1)] + ([Write(0, t1, YES)] + ([Write(1, t2, YES)] + [])))))
  }

  /** Where a race ends when the SELECTs take no lock. */
  lemma RaceRuns(first: Kind, second: Kind, clock: int, deadlineAt: int, t1: int, t2: int) returns (w: World)
    requires LegalKind(first) && LegalKind(second) && clock <= t1 <= t2
    ensures var events := Race(first, second, t1, t2);
            Runs(Start(false, clock, deadlineAt), events) && After(Start(false, clock, deadlineAt), events) == w
    ensures var row := Start(false, clock, deadlineAt).row;
            var a, b := Wanted(row, first, t1), Wanted(row, second, t2);
            && w.row == Overwrite(Overwrite(row, row, a), row, b)
            && w.requested == (if a.cancelRequestedAt != row.cancelRequestedAt then [t1] else [])
                              + (if b.cancelRequestedAt != row.cancelRequestedAt then [t2] else [])
  {
    hide Overwrite, Wanted, CancelReply, MarkerTtl;
    var w0 := Start(false, clock, deadlineAt);
    var w1 := Step(w0, Arrive(first));
    var w2 := Step(w1, Arrive(second));
    var w3 := Step(w2, Lock(0));
    var w4 := Step(w3, Lock(1));
    var w5 := Step(w4, Write(0, t1, YES));
    w := Step(w5, Write(1, t2, YES));
    hide Runs, After, Step;
    RunsNone(w);
    RunsCons(w5, Write(1, t2, YES), []);
    RunsCons(w4, Write(0, t1, YES), [Write(1, t2, YES)] + []);
    RunsCons(w3, Lock(1), [Write(0, t1, YES)] + ([Write(1, t2, YES)] + []));
    RunsCons(w2, Lock(0), [Lock(1)] + ([Write(0, t1, YES)] + ([Write(1, t2, YES)] + [])));
    RunsCons(w1, Arrive(second), [Lock(0)] + ([Lock(1)] + ([Write(0, t1, YES)] + ([Write(1, t2, YES)] + []))));
    RunsCons(w0, Arrive(first),
             [Arrive(second)] + ([Lock(0)] + ([Lock(1)] + ([Write(0, t1, YES)] + ([Write(1, t2, YES)] + [])))));
  }

  /** The lock is needed.  Without it two requests both write the request time, the second over
      the first; and a request alters a run that has succeeded since it was read. */
  lemma LockIsNeeded(clock: int, deadlineAt: int)
    requires clock < deadlineAt
    ensures var w0, events := Start(false, clock, deadlineAt), Race(CancelRequest, CancelRequest, clock, clock + 1);
            && Runs(w0, events)
            && After(w0, events).requested == [clock, clock + 1]
            && After(w0, events).row.cancelRequestedAt == Some(clock + 1)
    ensures var w0, events := Start(false, clock, deadlineAt), Race(Finish(Succeeded), CancelRequest, clock, clock + 1);
            && Runs(w0, events)
            && After(w0, events).row.status == Succeeded && After(w0, events).row.phase == Stopping
            && After(w0, events).row.cancelRequestedAt == Some(clock + 1)
  {
    var u := RaceRuns(CancelRequest, CancelRequest, clock, deadlineAt, clock, clock + 1);
    var v := RaceRuns(Finish(Succeeded), CancelRequest, clock, deadlineAt, clock, clock + 1);
    hide Race, Runs, After;
  }

  // ------------------------------------------------------------------ the endpoint

  class GenerationRun {
    var row: Row
    var marker: Option<int>

    constructor (now: int, deadlineAt: int)
      ensures row == Start(true, now, deadlineAt).row && marker == None
    {
      row, marker := Row(Running, Working, None, now, now, None, deadlineAt), None;
    }

    /** `cancel_stage_generation` on a row it holds locked; `found` says whether the id names a
        run of this stage and user, `at` when Redis stores the marker. */
    method CancelStageGeneration(found: bool, now: int, later: int, at: int, redisUp: bool) returns (reply: Reply)
      requires now <= later <= at
      modifies this
      ensures reply == if found then CancelReply(old(row), now) else Refused(StaleId)
      ensures row == if found then CancelRow(old(row), now) else old(row)
      ensures found && old(row).status != Running ==> row == old(row)
      ensures !found ==> reply == Refused(StaleId)
      ensures found && old(row).status == Succeeded ==> reply == Refused(AlreadySucceeded)
      ensures found && old(row).status !in {Running, Cancelled, Succeeded} ==> reply == Refused(NotActive)
      ensures found && old(row).status in {Running, Cancelled} ==> reply == Shows(row)
      ensures found && old(row).status == Running && old(row).cancelRequestedAt.None? ==>
                row.status == Running && row.cancelRequestedAt == Some(now) && row.phase == Stopping
                && row.heartbeatAt == row.updatedAt == now
      ensures found && old(row).cancelRequestedAt.Some? ==> row == old(row)
      ensures marker != old(marker) ==> found && redisUp && marker.Some? && marker.value > row.deadlineAt
      ensures found && redisUp && old(row).status == Running ==> marker.Some? && marker.value > row.deadlineAt
    {
      if !found { return Refused(StaleId); }
      if row.status == Cancelled { return Shows(row); }
      if row.status != Running { return Refused(if row.status == Succeeded then AlreadySucceeded else NotActive); }
      if row.cancelRequestedAt.None? {
        row := row.(cancelRequestedAt := Some(now), phase := Stopping, heartbeatAt := now, updatedAt := now);
      }
      var ttl := MarkerTtl(row.deadlineAt, later);
      MarkerOutlivesDeadline(row.deadlineAt, later, at);
      if redisUp {
        marker := Some(at + ttl * SECOND);
      }
      return Shows(row);
    }
  }
}
