/** Manual corrections and webhook grants for one (provider, order id).  Each runs in one
    transaction: pre-check, insert the pack, insert the ledger row, and for a correction the
    audit row, then commit.  Every insert waits while another transaction holds a row with the
    same unique key.  Transactions interleave freely, fail anywhere, and may lose the
    acknowledgement of their commit. */
module AdminCorrection {
  import opened Attempts
  import opened Options

  /** Which unique ledger reason a grant is recorded under. */
  datatype Kind = Correction | Webhook

  /** Who wrote a committed row: a transaction of the run, or someone before it. */
  datatype Origin = Before | By(i: nat)

  datatype Entry = Entry(kind: Kind, origin: Origin)

  datatype Answer = Applied | NotApplied | Errored

  /** Packed holds an uncommitted pack, Granted a ledger row too, Audited an audit row too. */
  datatype Stage = Arrived | Begun | Checked | Packed | Granted | Audited | Done(answer: Answer)

  datatype Tx = Tx(kind: Kind, stage: Stage)

  /** The committed rows of this order. */
  datatype Db = Db(packs: seq<Origin>, ledger: seq<Entry>, audits: seq<Origin>)

  /** `serial`: the provider's transactions first take an advisory lock on the payment. */
  datatype World = World(serial: bool, db: Db, txs: seq<Tx>)

  datatype Event =
    | Arrive(kind: Kind)
    | Begin(i: nat)
    | PreCheck(i: nat)
    | InsertPack(i: nat)
    | Grant(i: nat)
    | Audit(i: nat)
    | Commit(i: nat, outcome: Attempt)
    | Abort(i: nat)

  predicate Active(tx: Tx) {
    tx.stage != Arrived && !tx.stage.Done?
  }

  predicate HoldsPack(tx: Tx) {
    tx.stage == Packed || tx.stage == Granted || tx.stage == Audited
  }

  predicate HoldsLedger(tx: Tx, kind: Kind) {
    tx.kind == kind && (tx.stage == Granted || tx.stage == Audited)
  }

  predicate Recorded(ledger: seq<Entry>, kind: Kind) {
    exists k :: 0 <= k < |ledger| && ledger[k].kind == kind
  }

  predicate At(w: World, i: nat, stage: Stage) {
    i < |w.txs| && w.txs[i].stage == stage
  }

  predicate Enabled(w: World, e: Event) {
    match e
    case Arrive(_) => true
    case Begin(i) => At(w, i, Arrived) && (w.serial ==> forall j :: 0 <= j < |w.txs| ==> !Active(w.txs[j]))
    case PreCheck(i) => At(w, i, Begun)
    case InsertPack(i) => At(w, i, Checked) && forall j :: 0 <= j < |w.txs| ==> !HoldsPack(w.txs[j])
    case Grant(i) => At(w, i, Packed) && forall j :: 0 <= j < |w.txs| ==> !HoldsLedger(w.txs[j], w.txs[i].kind)
    case Audit(i) =>
      && At(w, i, Granted) && w.txs[i].kind == Correction
      && forall j :: 0 <= j < |w.txs| ==> w.txs[j].stage != Audited
    case Commit(i, outcome) =>
      && (outcome.ok ==> outcome.reached)
      && (At(w, i, Audited) || (At(w, i, Granted) && w.txs[i].kind == Webhook))
    case Abort(i) => i < |w.txs| && Active(w.txs[i])
  }

  /** A correction stops on an earlier pack or audit row, a webhook on an earlier pack. */
  predicate AlreadyThere(db: Db, kind: Kind) {
    db.packs != [] || (kind == Correction && db.audits != [])
  }

  function Step(w: World, e: Event): World
    requires Enabled(w, e)
  {
    match e
    case Arrive(kind) => w.(txs := w.txs + [Tx(kind, Arrived)])
    case Begin(i) => w.(txs := w.txs[i := w.txs[i].(stage := Begun)])
    case PreCheck(i) =>
      w.(txs := w.txs[i := w.txs[i].(stage := if AlreadyThere(w.db, w.txs[i].kind) then Done(NotApplied) else Checked)])
    case InsertPack(i) =>
      w.(txs := w.txs[i := w.txs[i].(stage := if w.db.packs != [] then Done(NotApplied) else Packed)])
    case Grant(i) =>
      var next := if Recorded(w.db.ledger, w.txs[i].kind) then Done(NotApplied) else Granted;
      w.(txs := w.txs[i := w.txs[i].(stage := next)])
    case Audit(i) =>
      w.(txs := w.txs[i := w.txs[i].(stage :=
        if w.db.audits == [] then Audited else Done(if w.serial then Errored else NotApplied))])
    case Commit(i, outcome) =>
      var tx := w.txs[i];
      w.(db := if outcome.reached then Committed(w.db, i, tx.kind) else w.db,
         txs := w.txs[i := tx.(stage := Done(if outcome.ok then Applied else Errored))])
    case Abort(i) => w.(txs := w.txs[i := w.txs[i].(stage := Done(Errored))])
  }

  function Committed(db: Db, i: nat, kind: Kind): Db {
    Db(db.packs + [By(i)], db.ledger + [Entry(kind, By(i))],
       if kind == Correction then db.audits + [By(i)] else db.audits)
  }

  predicate Runs(w: World, events: seq<Event>)
    decreases |events|
  {
    events == [] || (Enabled(w, events[0]) && Runs(Step(w, events[0]), events[1..]))
  }

  function After(w: World, events: seq<Event>): World
    requires Runs(w, events)
    decreases |events|
  {
    if events == [] then w else After(Step(w, events[0]), events[1..])
  }

  function Start(serial: bool, db: Db): World {
    World(serial, db, [])
  }

  // ------------------------------------------------------------------ invariant

  /** Rows of `origin` exist in the ledger. */
  predicate InLedger(ledger: seq<Entry>, origin: Origin) {
    exists k :: 0 <= k < |ledger| && ledger[k].origin == origin
  }

  /** Every unique index holds, and no pack lacks its ledger entry. */
  ghost predicate Legal(db: Db) {
    && |db.packs| <= 1 && |db.audits| <= 1
    && (forall j, k :: 0 <= j < k < |db.ledger| ==> db.ledger[j].kind != db.ledger[k].kind)
    && (forall k :: 0 <= k < |db.packs| ==> InLedger(db.ledger, db.packs[k]))
  }

  /** Uncommitted packs: one at a time, and only while none is committed. */
  ghost predicate PackHolder(w: World) {
    && (forall i, j :: 0 <= i < |w.txs| && 0 <= j < |w.txs| && HoldsPack(w.txs[i]) && HoldsPack(w.txs[j]) ==> i == j)
    && (forall i :: 0 <= i < |w.txs| && HoldsPack(w.txs[i]) ==> w.db.packs == [])
  }

  /** Uncommitted ledger and audit rows have no committed rival. */
  ghost predicate NoRivals(w: World) {
    && (forall i :: 0 <= i < |w.txs| && HoldsLedger(w.txs[i], w.txs[i].kind) ==> !Recorded(w.db.ledger, w.txs[i].kind))
    && (forall i :: 0 <= i < |w.txs| && w.txs[i].stage == Audited ==> w.txs[i].kind == Correction && w.db.audits == [])
  }

  /** An answer "applied" means that this transaction's own rows are the committed ones. */
  ghost predicate AnswersTrue(w: World) {
    forall i :: 0 <= i < |w.txs| && w.txs[i].stage == Done(Applied) ==>
      && w.db.packs == [By(i)]
      && Entry(w.txs[i].kind, By(i)) in w.db.ledger
      && (w.txs[i].kind == Correction ==> w.db.audits == [By(i)])
  }

  ghost predicate Inv(w: World) {
    Legal(w.db) && PackHolder(w) && NoRivals(w) && AnswersTrue(w)
  }

  lemma CommitLegal(db: Db, i: nat, kind: Kind)
    requires Legal(db) && db.packs == [] && !Recorded(db.ledger, kind) && (kind == Correction ==> db.audits == [])
    ensures Legal(Committed(db, i, kind))
  {
    var db' := Committed(db, i, kind);
    assert db'.ledger[|db.ledger|].origin == By(i);
    assert db'.packs == [By(i)];
  }

  lemma StepDb(w: World, e: Event)
    requires Enabled(w, e) && Inv(w)
    ensures Legal(Step(w, e).db)
    ensures !e.Commit? || !e.outcome.reached ==> Step(w, e).db == w.db
    ensures e.Commit? && e.outcome.reached ==>
              w.db.packs == [] && Step(w, e).db == Committed(w.db, e.i, w.txs[e.i].kind)
              && (w.txs[e.i].kind == Correction ==> w.db.audits == [])
  {
    if e.Commit? && e.outcome.reached {
      CommitLegal(w.db, e.i, w.txs[e.i].kind);
    }
    hide Legal;
  }

  lemma StepPackHolder(w: World, e: Event)
    requires Enabled(w, e) && Inv(w)
    ensures PackHolder(Step(w, e))
  {
    hide Legal, AnswersTrue, NoRivals, Recorded, Committed;
    if e.Commit? {
      assert HoldsPack(w.txs[e.i]);
    }
  }

  /** A transaction that holds a ledger row holds the pack as well: so it is alone. */
  lemma StepNoRivals(w: World, e: Event)
    requires Enabled(w, e) && Inv(w)
    ensures NoRivals(Step(w, e))
  {
    hide Legal, AnswersTrue, Recorded, Committed;
    var w' := Step(w, e);
    if e.Commit? {
      assert HoldsPack(w.txs[e.i]);
      forall k | 0 <= k < |w'.txs| ensures !HoldsLedger(w'.txs[k], w'.txs[k].kind) && w'.txs[k].stage != Audited {
        assert k != e.i ==> !HoldsPack(w.txs[k]);
      }
    }
  }

  lemma StepAnswers(w: World, e: Event)
    requires Enabled(w, e) && Inv(w)
    ensures AnswersTrue(Step(w, e))
  {
    StepDb(w, e);
    hide Legal, Recorded;
  }

  lemma StepInv(w: World, e: Event)
    requires Enabled(w, e) && Inv(w)
    ensures Inv(Step(w, e))
  {
    StepDb(w, e);
    StepPackHolder(w, e);
    StepNoRivals(w, e);
    StepAnswers(w, e);
    hide Legal, PackHolder, NoRivals, AnswersTrue, Step, Enabled;
  }

  lemma {:induction false} RunInv(w: World, events: seq<Event>)
    requires Inv(w) && Runs(w, events)
    ensures Inv(After(w, events))
    decreases |events|
  {
    hide Inv, Step, Enabled;
    if events != [] {
      StepInv(w, events[0]);
      RunInv(Step(w, events[0]), events[1..]);
    }
  }

  // ------------------------------------------------------------------ exactly once

  /** Over every run of corrections and webhook grants, from any legal database: at most one
      pack and one audit row; no pack without its ledger entry; at most one "applied" answer,
      which names the very rows committed. */
  lemma ExactlyOnce(serial: bool, db: Db, events: seq<Event>)
    requires Legal(db) && Runs(Start(serial, db), events)
    ensures var w := After(Start(serial, db), events);
            && |w.db.packs| <= 1 && |w.db.audits| <= 1
            && (w.db.packs != [] ==> InLedger(w.db.ledger, w.db.packs[0]))
            && (forall i: nat, j: nat :: At(w, i, Done(Applied)) && At(w, j, Done(Applied)) ==> i == j)
            && (forall i: nat :: At(w, i, Done(Applied)) ==>
                  && w.db.packs == [By(i)] && Entry(w.txs[i].kind, By(i)) in w.db.ledger
                  && (w.txs[i].kind == Correction ==> w.db.audits == [By(i)]))
  {
    RunInv(Start(serial, db), events);
    var w := After(Start(serial, db), events);
    forall i: nat, j: nat | At(w, i, Done(Applied)) && At(w, j, Done(Applied)) ensures i == j {
      assert w.db.packs == [By(i)] == [By(j)];
      assert [By(i)][0] == [By(j)][0];
    }
  }

  /** What a run starts with it keeps: rows are only added, and none once a pack is there. */
  lemma {:induction false} RowsStay(w: World, events: seq<Event>)
    requires Inv(w) && Runs(w, events)
    ensures var db := After(w, events).db;
            && w.db.packs <= db.packs && w.db.ledger <= db.ledger && w.db.audits <= db.audits
            && (w.db.packs != [] ==> db == w.db)
    decreases |events|
  {
    hide Inv, Step, Enabled, Legal;
    if events != [] {
      StepInv(w, events[0]);
      assert w.db.packs <= Step(w, events[0]).db.packs && w.db.ledger <= Step(w, events[0]).db.ledger
             && w.db.audits <= Step(w, events[0]).db.audits && (w.db.packs != [] ==> Step(w, events[0]).db == w.db) by {
        StepGrows(w, events[0]);
      }
      RowsStay(Step(w, events[0]), events[1..]);
    }
  }

  lemma StepGrows(w: World, e: Event)
    requires Enabled(w, e) && Inv(w)
    ensures var db := Step(w, e).db;
            && w.db.packs <= db.packs && w.db.ledger <= db.ledger && w.db.audits <= db.audits
            && (w.db.packs != [] ==> db == w.db)
  {
    StepDb(w, e);
    hide Inv, Step, Enabled, Legal;
  }

  // ------------------------------------------------------------------ under the advisory lock

  /** With the lock, one transaction at a time is past it, and what its pre-check saw holds. */
  ghost predicate Serialised(w: World) {
    && w.serial
    && (forall i, j :: 0 <= i < |w.txs| && 0 <= j < |w.txs| && Active(w.txs[i]) && Active(w.txs[j]) ==> i == j)
    && (forall i :: 0 <= i < |w.txs| && Active(w.txs[i]) && w.txs[i].stage != Begun ==>
          !AlreadyThere(w.db, w.txs[i].kind))
  }

  lemma SerialStep(w: World, e: Event)
    requires Enabled(w, e) && Serialised(w)
    ensures Serialised(Step(w, e))
  {
    hide Committed, Recorded, AlreadyThere;
    var w' := Step(w, e);
    if e.Commit? {
      forall k | 0 <= k < |w'.txs| ensures !Active(w'.txs[k]) {
        assert k != e.i ==> !Active(w.txs[k]);
      }
    }
  }

  lemma {:induction false} SerialRun(w: World, events: seq<Event>)
    requires Serialised(w) && Runs(w, events)
    ensures Serialised(After(w, events))
    decreases |events|
  {
    hide Serialised, Step, Enabled;
    if events != [] {
      SerialStep(w, events[0]);
      SerialRun(Step(w, events[0]), events[1..]);
    }
  }

  /** Under the lock no unique index but the ledger's ever fires after the pre-check: in
      particular the audit row, flushed where no handler catches a conflict, has none. */
  lemma LockedInsertsSucceed(db: Db, events: seq<Event>, i: nat)
    requires Runs(Start(true, db), events)
    ensures var w := After(Start(true, db), events);
            && (Enabled(w, InsertPack(i)) ==> At(Step(w, InsertPack(i)), i, Packed))
            && (Enabled(w, Audit(i)) ==> At(Step(w, Audit(i)), i, Audited))
  {
    SerialRun(Start(true, db), events);
  }

  // ------------------------------------------------------------------ conflicts are not errors

  /** Nothing but rivals stands in the way. */
  predicate Smooth(events: seq<Event>) {
    forall k :: 0 <= k < |events| ==> !events[k].Abort? && (events[k].Commit? ==> events[k].outcome.ok)
  }

  predicate NoErrors(w: World) {
    forall i :: 0 <= i < |w.txs| ==> w.txs[i].stage != Done(Errored)
  }

  lemma SmoothStep(w: World, e: Event)
    requires Enabled(w, e) && NoErrors(w) && !e.Abort? && (e.Commit? ==> e.outcome.ok)
    requires w.serial ==> Serialised(w)
    ensures NoErrors(Step(w, e))
  {
    hide Committed, Recorded;
  }

  lemma {:induction false} SmoothRun(w: World, events: seq<Event>)
    requires Runs(w, events) && NoErrors(w) && Smooth(events) && (w.serial ==> Serialised(w))
    ensures NoErrors(After(w, events))
    decreases |events|
  {
    hide NoErrors, Enabled, Step, Serialised;
    if events != [] {
      assert !events[0].Abort?;
      SmoothStep(w, events[0]);
      SerialStays(w, events[0]);
      SmoothRun(Step(w, events[0]), events[1..]);
    }
  }

  lemma SerialStays(w: World, e: Event)
    requires Enabled(w, e) && (w.serial ==> Serialised(w))
    ensures Step(w, e).serial == w.serial && (w.serial ==> Serialised(Step(w, e)))
  {
    if w.serial {
      SerialStep(w, e);
    }
  }

  /** Over every run in which nobody gives up and no commit fails, a transaction that meets a rival
      answers "not applied": a conflict on any of the unique indexes is never an error. */
  lemma ConflictsAreNoErrors(serial: bool, db: Db, events: seq<Event>)
    requires Runs(Start(serial, db), events) && Smooth(events)
    ensures NoErrors(After(Start(serial, db), events))
  {
    SmoothRun(Start(serial, db), events);
  }

  // ------------------------------------------------------------------ one correction, uninterrupted

  lemma RunsCons(w: World, e: Event, events: seq<Event>)
    requires Enabled(w, e) && Runs(Step(w, e), events)
    ensures Runs(w, [e] + events) && After(w, [e] + events) == After(Step(w, e), events)
  {
    assert ([e] + events)[1..] == events;
  }

  lemma RunsNone(w: World)
    ensures Runs(w, []) && After(w, []) == w
  {}

  /** Does a correction that meets no rival and no failure apply? */
  predicate Applies(db: Db) {
    db.packs == [] && db.audits == [] && !Recorded(db.ledger, Correction)
  }

  /** The steps of one correction, up to where the source stops. */
  function Script(w: World, commit: Attempt): seq<Event> {
    var n := |w.txs|;
    [Arrive(Correction)] + ([Begin(n)] + ([PreCheck(n)] + Inserts(w, commit)))
  }

  function Inserts(w: World, commit: Attempt): seq<Event> {
    var n := |w.txs|;
    if AlreadyThere(w.db, Correction) then []
    else if Recorded(w.db.ledger, Correction) then [InsertPack(n)] + ([Grant(n)] + [])
    else [InsertPack(n)] + ([Grant(n)] + ([Audit(n)] + ([Commit(n, commit)] + [])))
  }

  function Outcome(w: World, commit: Attempt): World {
    var answer := if !Applies(w.db) then NotApplied else if commit.ok then Applied else Errored;
    World(w.serial, if Applies(w.db) && commit.reached then Committed(w.db, |w.txs|, Correction) else w.db,
          w.txs + [Tx(Correction, Done(answer))])
  }

  /** A world whose last transaction is a correction at this stage. */
  function Reached(w: World, stage: Stage): World {
    w.(txs := w.txs + [Tx(Correction, stage)])
  }

  predicate Quiet(w: World) {
    forall j :: 0 <= j < |w.txs| ==> !Active(w.txs[j])
  }

  lemma StepReached(w: World, stage: Stage, e: Event, next: Stage)
    requires Quiet(w)
    requires var n := |w.txs|;
             || (stage == Arrived && e == Begin(n) && next == Begun)
             || (stage == Begun && e == PreCheck(n)
                 && next == if AlreadyThere(w.db, Correction) then Done(NotApplied) else Checked)
             || (stage == Checked && e == InsertPack(n) && w.db.packs == [] && next == Packed)
             || (stage == Packed && e == Grant(n)
                 && next == if Recorded(w.db.ledger, Correction) then Done(NotApplied) else Granted)
             || (stage == Granted && e == Audit(n) && w.db.audits == [] && next == Audited)
    ensures Enabled(Reached(w, stage), e) && Step(Reached(w, stage), e) == Reached(w, next)
  {
    hide Recorded, AlreadyThere;
  }

  lemma ScriptRuns(w: World, commit: Attempt)
    requires Quiet(w) && (commit.ok ==> commit.reached)
    ensures Runs(w, Script(w, commit)) && After(w, Script(w, commit)) == Outcome(w, commit)
  {
    hide Runs, After, Recorded, Committed, Quiet;
    var n := |w.txs|;
    var rest: seq<Event> := [];
    if !AlreadyThere(w.db, Correction) {
      if !Recorded(w.db.ledger, Correction) {
        RunsNone(Outcome(w, commit));
        assert Step(Reached(w, Audited), Commit(n, commit)) == Outcome(w, commit);
        RunsCons(Reached(w, Audited), Commit(n, commit), []);
        StepReached(w, Granted, Audit(n), Audited);
        RunsCons(Reached(w, Granted), Audit(n), [Commit(n, commit)] + []);
        rest := [Audit(n)] + ([Commit(n, commit)] + []);
      } else {
        RunsNone(Reached(w, Done(NotApplied)));
      }
      StepReached(w, Packed, Grant(n), if Recorded(w.db.ledger, Correction) then Done(NotApplied) else Granted);
      RunsCons(Reached(w, Packed), Grant(n), rest);
      StepReached(w, Checked, InsertPack(n), Packed);
      RunsCons(Reached(w, Checked), InsertPack(n), [Grant(n)] + rest);
      rest := [InsertPack(n)] + ([Grant(n)] + rest);
    } else {
      RunsNone(Reached(w, Done(NotApplied)));
    }
    StepReached(w, Begun, PreCheck(n), if AlreadyThere(w.db, Correction) then Done(NotApplied) else Checked);
    RunsCons(Reached(w, Begun), PreCheck(n), rest);
    StepReached(w, Arrived, Begin(n), Begun);
    RunsCons(Reached(w, Arrived), Begin(n), [PreCheck(n)] + rest);
    assert Step(w, Arrive(Correction)) == Reached(w, Arrived);
    RunsCons(w, Arrive(Correction), [Begin(n)] + ([PreCheck(n)] + rest));
  }

  // ------------------------------------------------------------------ refusals

  datatype Price = Price(credits: int, cents: int, currency: string)

  /** What the provider says of the original checkout; `rejected`: its link, notes and attempt
      do not belong together. */
  datatype Payment = Unreadable | Unpaid | Paid(id: string, rejected: bool)

  /** One correction request and what it finds: the checkout it refers to (None: no such attempt
      of the target), whether an existing pack is the target's, whether the target exists. */
  datatype Claim = Claim(orderId: string, price: Price, hasRef: bool, checkout: Option<Price>, payment: Payment,
                         ownPack: bool, target: bool)

  datatype Reply = Refused(code: int) | Answered(answer: Answer)

  /** The evidence a grant needs: for Razorpay the original checkout, of this very price, paid by
      this very payment. */
  predicate Proved(serial: bool, c: Claim) {
    serial ==> c.hasRef && c.checkout == Some(c.price) && c.payment == Paid(c.orderId, false)
  }

  /** The HTTP error a request ends with before it writes anything. */
  function Refusal(w: World, c: Claim): Option<int> {
    if w.serial && !c.hasRef then Some(422)
    else if w.serial && c.checkout.None? then Some(404)
    else if w.serial && c.payment.Unreadable? then Some(502)
    else if !Proved(w.serial, c) || (w.serial && w.db.packs != [] && !c.ownPack) then Some(409)
    else if !AlreadyThere(w.db, Correction) && !c.target then Some(404)
    else None
  }

  /** The steps of a request: none without a checkout reference, and otherwise a transaction that
      a refusal rolls back. */
  function Steps(w: World, c: Claim, commit: Attempt): seq<Event> {
    var n := |w.txs|;
    if Refusal(w, c).None? then Script(w, commit)
    else if w.serial && !c.hasRef then []
    else if Proved(w.serial, c) && !AlreadyThere(w.db, Correction) then
      [Arrive(Correction)] + ([Begin(n)] + ([PreCheck(n)] + ([Abort(n)] + [])))
    else [Arrive(Correction)] + ([Begin(n)] + ([Abort(n)] + []))
  }

  function Ended(w: World, c: Claim, commit: Attempt): World {
    if Refusal(w, c).None? then Outcome(w, commit)
    else if w.serial && !c.hasRef then w
    else Reached(w, Done(Errored))
  }

  lemma StepsRun(w: World, c: Claim, commit: Attempt)
    requires Quiet(w) && (commit.ok ==> commit.reached)
    ensures Runs(w, Steps(w, c, commit)) && After(w, Steps(w, c, commit)) == Ended(w, c, commit)
  {
    hide Runs, After, Recorded, Committed, Quiet, Proved;
    var n := |w.txs|;
    if Refusal(w, c).None? {
      ScriptRuns(w, commit);
    } else if w.serial && !c.hasRef {
      RunsNone(w);
    } else {
      RunsNone(Reached(w, Done(Errored)));
      var rest: seq<Event> := [Abort(n)] + [];
      if Proved(w.serial, c) && !AlreadyThere(w.db, Correction) {
        assert Step(Reached(w, Checked), Abort(n)) == Reached(w, Done(Errored));
        RunsCons(Reached(w, Checked), Abort(n), []);
        StepReached(w, Begun, PreCheck(n), Checked);
        RunsCons(Reached(w, Begun), PreCheck(n), rest);
        rest := [PreCheck(n)] + rest;
      } else {
        assert Step(Reached(w, Begun), Abort(n)) == Reached(w, Done(Errored));
        RunsCons(Reached(w, Begun), Abort(n), []);
      }
      StepReached(w, Arrived, Begin(n), Begun);
      RunsCons(Reached(w, Arrived), Begin(n), rest);
      assert Step(w, Arrive(Correction)) == Reached(w, Arrived);
      RunsCons(w, Arrive(Correction), [Begin(n)] + rest);
    }
  }

  /** The rows of one order, as one request sees them. */
  class Orders {
    const serial: bool
    var packs: seq<Origin>
    var ledger: seq<Entry>
    var audits: seq<Origin>
    var txs: seq<Tx>

    function View(): World
      reads this
    {
      World(serial, Db(packs, ledger, audits), txs)
    }

    constructor (serial: bool)
      ensures View() == Start(serial, Db([], [], []))
    {
      this.serial := serial;
      packs, ledger, audits, txs := [], [], [], [];
    }

    method LedgerHas(kind: Kind) returns (found: bool)
      ensures found == Recorded(ledger, kind)
    {
      found := false;
      for k := 0 to |ledger|
        invariant !found && forall j :: 0 <= j < k ==> ledger[j].kind != kind
      {
        if ledger[k].kind == kind { return true; }
      }
    }

    /** `admin_correction` on an order nobody else is working on.  Rows appear exactly when the
        evidence holds, the target exists, the order has neither pack, audit row nor correction
        in the ledger, and the commit takes effect; they are then this transaction's own. */
    method AdminCorrection(c: Claim, commit: Attempt) returns (reply: Reply)
      requires Quiet(View()) && (commit.ok ==> commit.reached)
      modifies this
      ensures Runs(old(View()), Steps(old(View()), c, commit))
      ensures View() == After(old(View()), Steps(old(View()), c, commit))
      ensures var due := Proved(serial, c) && c.target && Applies(old(View()).db);
              && (reply == Answered(Applied) <==> due && commit.ok)
              && if due && commit.reached
                 then packs == [By(|old(txs)|)] == audits
                      && ledger == old(ledger) + [Entry(Correction, By(|old(txs)|))]
                 else View().db == old(View()).db
      ensures reply.Refused? <==> Refusal(old(View()), c).Some?
      ensures reply.Refused? ==> reply.code == Refusal(old(View()), c).value
      ensures var found := serial ==> c.hasRef && c.checkout.Some?;
              && (reply == Refused(422) <==> serial && !c.hasRef)
              && (reply == Refused(502) <==> serial && found && c.payment.Unreadable?)
              && (reply == Refused(409) <==>
                    serial && found && !c.payment.Unreadable?
                    && (c.payment != Paid(c.orderId, false) || c.checkout != Some(c.price)
                        || (old(packs) != [] && !c.ownPack)))
              && (reply == Refused(404) <==>
                    || (serial && c.hasRef && c.checkout.None?)
                    || (Proved(serial, c) && old(packs) == [] && old(audits) == [] && !c.target))
      ensures reply == Answered(NotApplied) <==> !reply.Refused? && !Applies(old(View()).db)
    {
      hide Runs, After, Quiet, Script, Recorded;
      StepsRun(View(), c, commit);
      var n := |txs|;
      var refused := Tx(Correction, Done(Errored));
      if serial {
        if !c.hasRef { return Refused(422); }
        if c.checkout.None? {
          txs := txs + [refused];
          return Refused(404);
        }
        if c.payment.Unreadable? {
          txs := txs + [refused];
          return Refused(502);
        }
        if c.payment != Paid(c.orderId, false) || c.price != c.checkout.value {
          txs := txs + [refused];
          return Refused(409);
        }
      }
      if packs != [] || audits != [] {
        if serial && packs != [] && !c.ownPack {
          txs := txs + [refused];
          return Refused(409);
        }
        txs := txs + [Tx(Correction, Done(NotApplied))];
        return Answered(NotApplied);
      }
      if !c.target {
        txs := txs + [refused];
        return Refused(404);
      }
      packs := packs + [By(n)];
      var duplicate := LedgerHas(Correction);
      if duplicate {
        packs := [];
        txs := txs + [Tx(Correction, Done(NotApplied))];
        return Answered(NotApplied);
      }
      ledger := ledger + [Entry(Correction, By(n))];
      audits := audits + [By(n)];
      if !commit.reached {
        packs, ledger, audits := [], ledger[..|ledger| - 1], [];
      }
      reply := Answered(if commit.ok then Applied else Errored);
      txs := txs + [Tx(Correction, Done(reply.answer))];
    }
  }
}
