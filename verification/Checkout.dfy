/** One checkout, attempt first: commit the attempt, ask the provider for a hosted checkout,
    commit its id, and only then show its URL.  The expiry sweep, the buyer and the provider's
    webhook act in between; commits may fail, with or without having taken effect; the handler
    may crash anywhere.  A buyer can pay only through a URL that was shown. */
module Checkout {
  import opened Options
  import opened Attempts

  datatype Provider = Lemon | Razorpay

  datatype Status = Created | ProviderCreated | Completed | Expired | Failed

  datatype Row = Row(status: Status, checkoutId: Option<string>)

  /** `Url` is the 200 answer; Unavailable 503, BadGateway 502, ServerError 500. */
  datatype Answer = Url(checkoutId: string) | Unavailable | BadGateway | ServerError

  datatype Stage = Ready | Stored | Minted(id: string) | Refused | Done(answer: Answer) | Crashed

  /** One committed change of the row's status. */
  datatype Edge = Edge(from: Status, to: Status)

  datatype World = World(provider: Provider, now: int, expiresAt: int, stage: Stage, row: Option<Row>,
                         asked: bool, paid: bool, edges: seq<Edge>)

  datatype Event =
    | Store(commit: Attempt)
    | Ask(id: Option<string>)
    | MarkFailed(commit: Attempt)
    | MarkCreated(commit: Attempt)
    | Crash
    | Tick(d: nat)
    | Sweep
    | Pay
    | Grant

  function Start(provider: Provider, now: int, ttl: nat): World {
    World(provider, now, now + ttl, Ready, None, false, false, [])
  }

  predicate Sane(a: Attempt) {
    a.ok ==> a.reached
  }

  predicate Shown(w: World) {
    w.stage.Done? && w.stage.answer.Url?
  }

  /** The statuses from which a verified payment is settled. */
  predicate Grantable(provider: Provider, status: Status) {
    || status == Created || status == ProviderCreated || status == Completed
    || (provider == Razorpay && (status == Expired || status == Failed))
  }

  predicate Enabled(w: World, e: Event) {
    match e
    case Store(commit) => w.stage == Ready && Sane(commit)
    case Ask(_) => w.stage == Stored
    case MarkFailed(commit) => w.stage == Refused && Sane(commit) && w.row.Some?
    case MarkCreated(commit) => w.stage.Minted? && Sane(commit) && w.row.Some?
    case Crash => !w.stage.Done? && w.stage != Crashed
    case Tick(_) => true
    case Sweep => w.row.Some? && w.row.value.status in {Created, ProviderCreated} && w.expiresAt < w.now
    case Pay => Shown(w)
    case Grant => w.paid && w.row.Some? && Grantable(w.provider, w.row.value.status)
  }

  /** Commits a new row over the present one. */
  function Update(w: World, row: Row): World {
    w.(row := Some(row),
       edges := if w.row.Some? && w.row.value.status != row.status
           then w.edges + [Edge(w.row.value.status, row.status)] else w.edges)
  }

  function Step(w: World, e: Event): World
    requires Enabled(w, e)
  {
    match e
    case Store(commit) =>
      (if commit.reached then Update(w, Row(Created, None)) else w)
        .(stage := if commit.ok then Stored else Done(ServerError))
    case Ask(id) => w.(asked := true, stage := if id.Some? then Minted(id.value) else Refused)
    case MarkFailed(commit) =>
      (if commit.reached then Update(w, w.row.value.(status := Failed)) else w)
        .(stage := Done(if commit.ok then BadGateway else ServerError))
    case MarkCreated(commit) =>
      (if commit.reached then Update(w, Row(ProviderCreated, Some(w.stage.id))) else w)
        .(stage := Done(if commit.ok then Url(w.stage.id) else BadGateway))
    case Crash => w.(stage := Crashed)
    case Tick(d) => w.(now := w.now + d)
    case Sweep => Update(w, w.row.value.(status := Expired))
    case Pay => w.(paid := true)
    case Grant => Update(w, w.row.value.(status := Completed))
  }

  predicate Runs(w: World, events: seq<Event>)
    decreases |events|
  {
    events == [] || (Enabled(w, events[0]) && Runs(Step(w, events[0]), events[1..]))
  }

  function After(w: World, events: seq<Event>): World
    requires Runs(w, events)
    decreases |events|
  {
    if events == [] then w else After(Step(w, events[0]), events[1..])
  }

  // ------------------------------------------------------------------ invariant

  ghost predicate Inv(w: World) {
    && (w.stage == Ready ==> w.row == None)
    && (w.stage in {Stored, Refused} || w.stage.Minted? || w.asked ==> w.row.Some?)
    && (w.row.Some? && (w.stage in {Stored, Refused} || w.stage.Minted?) ==> w.row.value.status in {Created, Expired})
    && (w.paid ==> Shown(w))
    && (Shown(w) ==> w.row.Some? && w.row.value.checkoutId == Some(w.stage.answer.checkoutId)
                     && w.row.value.status in {ProviderCreated, Completed, Expired})
    && (w.row.Some? && w.row.value.status == Completed ==> w.paid)
  }

  lemma StepInv(w: World, e: Event)
    requires Inv(w) && Enabled(w, e)
    ensures Inv(Step(w, e))
  {}

  lemma {:induction false} RunInv(w: World, events: seq<Event>)
    requires Inv(w) && Runs(w, events)
    ensures Inv(After(w, events))
    decreases |events|
  {
    hide Inv, Step, Enabled;
    if events != [] {
      StepInv(w, events[0]);
      RunInv(Step(w, events[0]), events[1..]);
    }
  }

  /** Over every run: the attempt is durable before the provider is asked; a shown URL stands for
      a committed row with that very checkout id; payment and completion need a shown URL. */
  lemma AttemptFirst(provider: Provider, now: int, ttl: nat, events: seq<Event>)
    requires Runs(Start(provider, now, ttl), events)
    ensures var w := After(Start(provider, now, ttl), events);
            && (w.asked ==> w.row.Some?)
            && (Shown(w) ==> w.row.Some? && w.row.value.checkoutId == Some(w.stage.answer.checkoutId)
                             && w.row.value.status in {ProviderCreated, Completed, Expired})
            && (w.row.Some? && w.row.value.status == Completed ==> w.paid && Shown(w))
  {
    RunInv(Start(provider, now, ttl), events);
  }

  lemma {:induction false} RunsConcat(w: World, first: seq<Event>, rest: seq<Event>)
    requires Runs(w, first + rest)
    ensures Runs(w, first) && Runs(After(w, first), rest) && After(w, first + rest) == After(After(w, first), rest)
    decreases |first|
  {
    hide Step, Enabled;
    if first == [] {
      assert first + rest == rest;
    } else {
      assert (first + rest)[1..] == first[1..] + rest;
      RunsConcat(Step(w, first[0]), first[1..], rest);
    }
  }

  /** A failed attempt of a handler that has answered, unpaid. */
  predicate Settled(w: World) {
    w.stage.Done? && !Shown(w) && !w.paid && w.row.Some? && w.row.value.status == Failed
  }

  lemma {:induction false} SettledStays(w: World, events: seq<Event>)
    requires Settled(w) && Runs(w, events)
    ensures Settled(After(w, events))
    decreases |events|
  {
    if events != [] {
      SettledStays(Step(w, events[0]), events[1..]);
    }
  }

  /** Over every run: once the provider has refused and the handler's second write has taken effect,
      acknowledged or not, the attempt is `failed` and stays it, and no URL is ever shown. */
  lemma RefusalFails(provider: Provider, now: int, ttl: nat, before: seq<Event>, marked: Attempt, rest: seq<Event>)
    requires Runs(Start(provider, now, ttl), before + ([MarkFailed(marked)] + rest)) && marked.reached
    ensures var w := After(Start(provider, now, ttl), before + ([MarkFailed(marked)] + rest));
            w.row.Some? && w.row.value.status == Failed && !Shown(w) && !w.paid
  {
    var w0 := Start(provider, now, ttl);
    RunsConcat(w0, before, [MarkFailed(marked)] + rest);
    RunInv(w0, before);
    assert ([MarkFailed(marked)] + rest)[1..] == rest;
    SettledStays(Step(After(w0, before), MarkFailed(marked)), rest);
  }

  /** In every reachable state a payment settles the attempt exactly when there is one and the sweep
      has not expired the attempt, or the provider is Razorpay. */
  lemma GrantExactly(w: World)
    requires Inv(w)
    ensures Enabled(w, Grant) <==> w.paid && (w.row.value.status != Expired || w.provider == Razorpay)
    ensures Enabled(w, Grant) ==> Step(w, Grant).row == Some(w.row.value.(status := Completed))
  {}

  // ------------------------------------------------------------------ the edges of the status

  /** The transitions the model's documentation lists. */
  predicate Documented(e: Edge) {
    match e.to
    case ProviderCreated => e.from == Created
    case Completed => e.from == ProviderCreated
    case Expired | Failed => e.from == Created || e.from == ProviderCreated
    case Created => false
  }

  /** The edge this step commits, if it commits one. */
  function NewEdge(w: World, e: Event): Option<Edge>
    requires Enabled(w, e)
  {
    var w' := Step(w, e);
    if |w'.edges| > |w.edges| then Some(w'.edges[|w.edges|]) else None
  }

  /** In every reachable state, a committed change of status follows a documented edge exactly
      when the row it overwrites has not been expired by the sweep; and `completed` is never
      overwritten. */
  lemma EdgesAreDocumented(w: World, e: Event)
    requires Inv(w) && Enabled(w, e) && NewEdge(w, e).Some?
    ensures w.row.Some?
    ensures Documented(NewEdge(w, e).value) <==> w.row.value.status != Expired
    ensures NewEdge(w, e).value.from != Completed
  {}

  ghost predicate AllDocumented(w: World) {
    forall k :: 0 <= k < |w.edges| ==> Documented(w.edges[k])
  }

  /** What can happen over an expired row: the handler's own second write, or a late Razorpay
      settlement. */
  lemma OverExpired(w: World, e: Event)
    requires Inv(w) && Enabled(w, e) && NewEdge(w, e).Some? && w.row.Some? && w.row.value.status == Expired
    ensures || (e.MarkCreated? && NewEdge(w, e).value == Edge(Expired, ProviderCreated))
            || (e.MarkFailed? && NewEdge(w, e).value == Edge(Expired, Failed))
            || (e.Grant? && w.provider == Razorpay && NewEdge(w, e).value == Edge(Expired, Completed))
  {}

  /** What the edges of a run look like. */
  ghost predicate EdgesOk(w: World) {
    forall k :: 0 <= k < |w.edges| ==>
      && w.edges[k].from != Completed
      && (Documented(w.edges[k]) <==> w.edges[k].from != Expired)
      && (w.edges[k].from == Expired ==>
            w.edges[k].to in {ProviderCreated, Failed} || (w.provider == Razorpay && w.edges[k].to == Completed))
  }

  lemma {:induction false} EdgesOfRun(w: World, events: seq<Event>)
    requires Inv(w) && EdgesOk(w) && Runs(w, events)
    ensures EdgesOk(After(w, events)) && After(w, events).provider == w.provider
    decreases |events|
  {
    hide Inv, Documented, Enabled;
    if events != [] {
      var e := events[0];
      var w' := Step(w, e);
      StepInv(w, e);
      if NewEdge(w, e).Some? {
        EdgesAreDocumented(w, e);
        if w.row.value.status == Expired { OverExpired(w, e); }
      }
      EdgesOfRun(w', events[1..]);
    }
  }

  /** Over every run: `completed` is never overwritten, and the run stays on the documented edges
      if and only if it never writes over a row the sweep has expired. */
  lemma RunIsDocumented(provider: Provider, now: int, ttl: nat, events: seq<Event>)
    requires Runs(Start(provider, now, ttl), events)
    ensures var w := After(Start(provider, now, ttl), events);
            && (AllDocumented(w) <==> forall k :: 0 <= k < |w.edges| ==> w.edges[k].from != Expired)
            && (forall k :: 0 <= k < |w.edges| ==> w.edges[k].from != Completed)
            && (forall k :: 0 <= k < |w.edges| && w.edges[k].from == Expired ==>
                  w.edges[k].to in {ProviderCreated, Failed} || (provider == Razorpay && w.edges[k].to == Completed))
  {
    EdgesOfRun(Start(provider, now, ttl), events);
    hide Documented, Runs, After;
  }

  /** While the attempt has not outlived its time to live, nothing is swept and every edge is
      documented. */
  lemma {:induction false} InTime(w: World, events: seq<Event>)
    requires Inv(w) && Runs(w, events) && AllDocumented(w) && (w.row.Some? ==> w.row.value.status != Expired)
    requires After(w, events).now <= w.expiresAt
    ensures AllDocumented(After(w, events))
    decreases |events|
  {
    hide Inv, Documented;
    if events != [] {
      var e := events[0];
      StepInv(w, e);
      NowGrows(Step(w, e), events[1..]);
      if NewEdge(w, e).Some? {
        EdgesAreDocumented(w, e);
      }
      assert AllDocumented(Step(w, e)) && (Step(w, e).row.Some? ==> Step(w, e).row.value.status != Expired);
      InTime(Step(w, e), events[1..]);
    }
  }

  lemma {:induction false} NowGrows(w: World, events: seq<Event>)
    requires Runs(w, events)
    ensures w.now <= After(w, events).now && After(w, events).expiresAt == w.expiresAt
    decreases |events|
  {
    if events != [] {
      NowGrows(Step(w, events[0]), events[1..]);
    }
  }

  const YES := Attempt(true, true)

  /** Once the sweep can reach a stored attempt whose provider has not answered, it may expire it
      and the handler's second commit revives it. */
  lemma SweptIsRevived(w: World, id: string)
    requires w.stage == Stored && w.row == Some(Row(Created, None)) && w.expiresAt < w.now && w.edges == []
    ensures var events := [Sweep, Ask(Some(id)), MarkCreated(YES)];
            && Runs(w, events)
            && var w' := After(w, events);
               && w'.stage == Done(Url(id)) && w'.now == w.now && w'.expiresAt == w.expiresAt
               && w'.edges == [Edge(Created, Expired), Edge(Expired, ProviderCreated)]
  {
    var w1 := w.(row := Some(Row(Expired, None)), edges := [Edge(Created, Expired)]);
    var w2 := w1.(asked := true, stage := Minted(id));
    var w3 := Step(w2, MarkCreated(YES));
    assert w1 == Step(w, Sweep) && w2 == Step(w1, Ask(Some(id)));
    assert w3.edges == [Edge(Created, Expired)] + [Edge(Expired, ProviderCreated)];
    hide Runs, After, Step;
    RunsNone(w3);
    RunsCons(w2, MarkCreated(YES), []);
    RunsCons(w1, Ask(Some(id)), [MarkCreated(YES)] + []);
    RunsCons(w, Sweep, [Ask(Some(id))] + ([MarkCreated(YES)] + []));
    assert [Sweep, Ask(Some(id)), MarkCreated(YES)] == [Sweep] + ([Ask(Some(id))] + ([MarkCreated(YES)] + []));
  }

  /** A provider slower than the time to live: the sweep expires the attempt between its two
      commits, the second commit revives it, and the URL of an expired attempt is shown. */
  lemma SlowProviderRevives(provider: Provider, now: int, ttl: nat, id: string)
    ensures var events := [Store(YES)] + ([Tick(ttl + 1)] + [Sweep, Ask(Some(id)), MarkCreated(YES)]);
            && Runs(Start(provider, now, ttl), events)
            && var w := After(Start(provider, now, ttl), events);
               && Shown(w) && w.expiresAt < w.now
               && w.edges == [Edge(Created, Expired), Edge(Expired, ProviderCreated)] && !AllDocumented(w)
  {
    var w0 := Start(provider, now, ttl);
    var w1 := World(provider, now, now + ttl, Stored, Some(Row(Created, None)), false, false, []);
    var w2 := w1.(now := now + (ttl + 1));
    assert w1 == Step(w0, Store(YES)) && w2 == Step(w1, Tick(ttl + 1));
    hide Runs, After, Step;
    var rest := [Sweep, Ask(Some(id)), MarkCreated(YES)];
    SweptIsRevived(w2, id);
    RunsCons(w1, Tick(ttl + 1), rest);
    RunsCons(w0, Store(YES), [Tick(ttl + 1)] + rest);
    assert !Documented(After(w2, rest).edges[1]);
  }

  /** Once a paid attempt has been expired by the sweep, Razorpay still settles it. */
  lemma SweptIsSettled(w: World, d: nat, id: string)
    requires w.provider == Razorpay && w.paid && w.row == Some(Row(ProviderCreated, Some(id)))
    requires w.now + d > w.expiresAt && w.edges == [Edge(Created, ProviderCreated)]
    ensures var events := [Tick(d)] + ([Sweep] + ([Grant] + []));
            && Runs(w, events)
            && var w' := After(w, events);
               && w'.row == Some(Row(Completed, Some(id)))
               && w'.edges == [Edge(Created, ProviderCreated), Edge(ProviderCreated, Expired), Edge(Expired, Completed)]
  {
    var w1 := Step(w, Tick(d));
    var w2 := Step(w1, Sweep);
    var w3 := Step(w2, Grant);
    assert w3.edges == [Edge(Created, ProviderCreated)] + [Edge(ProviderCreated, Expired)] + [Edge(Expired, Completed)];
    hide Runs, After, Step;
    RunsNone(w3);
    RunsCons(w2, Grant, []);
    RunsCons(w1, Sweep, [Grant] + []);
    RunsCons(w, Tick(d), [Sweep] + ([Grant] + []));
  }

  /** A handler that dies while its provider answers leaves a durable attempt that nobody was shown
      and that the sweep expires once its time is up. */
  lemma CrashIsSwept(w: World, id: string)
    requires w.stage == Stored && w.row == Some(Row(Created, None)) && w.expiresAt < w.now && w.edges == []
    ensures var events := [Ask(Some(id))] + ([Crash] + ([Sweep] + []));
            && Runs(w, events)
            && var w' := After(w, events);
               w'.stage == Crashed && w'.row == Some(Row(Expired, None)) && w'.edges == [Edge(Created, Expired)]
  {
    var w1 := w.(asked := true, stage := Minted(id));
    var w2 := w1.(stage := Crashed);
    var w3 := Step(w2, Sweep);
    assert w1 == Step(w, Ask(Some(id))) && w2 == Step(w1, Crash);
    assert [] + [Edge(Created, Expired)] == [Edge(Created, Expired)];
    hide Runs, After, Step;
    RunsNone(w3);
    RunsCons(w2, Sweep, []);
    RunsCons(w1, Crash, [Sweep] + []);
    RunsCons(w, Ask(Some(id)), [Crash] + ([Sweep] + []));
  }

  lemma LateEdge(w: World)
    requires |w.edges| == 3 && w.edges[2] == Edge(Expired, Completed)
    ensures !AllDocumented(w)
  {
    assert !Documented(w.edges[2]);
  }

  /** The everyday case: the buyer pays through the URL in time, the webhook comes after the sweep
      has expired the attempt, and Razorpay settles it all the same. */
  lemma LateSettlementRevives(now: int, ttl: nat, id: string)
    ensures var late := [Tick(ttl + 1)] + ([Sweep] + ([Grant] + []));
            var events := [Store(YES)] + ([Ask(Some(id))] + ([MarkCreated(YES)] + ([Pay] + late)));
            && Runs(Start(Razorpay, now, ttl), events)
            && var w := After(Start(Razorpay, now, ttl), events);
               && w.row == Some(Row(Completed, Some(id))) && !AllDocumented(w)
               && w.edges == [Edge(Created, ProviderCreated), Edge(ProviderCreated, Expired), Edge(Expired, Completed)]
  {
    var late := [Tick(ttl + 1)] + ([Sweep] + ([Grant] + []));
    var w0 := Start(Razorpay, now, ttl);
    var w1 := World(Razorpay, now, now + ttl, Stored, Some(Row(Created, None)), false, false, []);
    var w2 := w1.(asked := true, stage := Minted(id));
    var w3 := w2.(stage := Done(Url(id)), row := Some(Row(ProviderCreated, Some(id))),
                  edges := [Edge(Created, ProviderCreated)]);
    var w4 := w3.(paid := true);
    assert w1 == Step(w0, Store(YES)) && w2 == Step(w1, Ask(Some(id)));
    assert [] + [Edge(Created, ProviderCreated)] == [Edge(Created, ProviderCreated)];
    assert w3 == Step(w2, MarkCreated(YES)) && w4 == Step(w3, Pay);
    hide Runs, After, Step, AllDocumented;
    SweptIsSettled(w4, ttl + 1, id);
    LateEdge(After(w4, late));
    RunsCons(w3, Pay, late);
    RunsCons(w2, MarkCreated(YES), [Pay] + late);
    RunsCons(w1, Ask(Some(id)), [MarkCreated(YES)] + ([Pay] + late));
    RunsCons(w0, Store(YES), [Ask(Some(id))] + ([MarkCreated(YES)] + ([Pay] + late)));
  }

  lemma RunsCons(w: World, e: Event, events: seq<Event>)
    requires Enabled(w, e) && Runs(Step(w, e), events)
    ensures Runs(w, [e] + events) && After(w, [e] + events) == After(Step(w, e), events)
  {
    assert ([e] + events)[1..] == events;
  }

  lemma RunsNone(w: World)
    ensures Runs(w, []) && After(w, []) == w
  {}

  // ------------------------------------------------------------------ the handler itself

  /** The steps of an undisturbed `create_checkout`. */
  function Script(stored: Attempt, minted: Option<string>, marked: Attempt): seq<Event> {
    [Store(stored)] +
      if !stored.ok then []
      else [Ask(minted)] + ([if minted.Some? then MarkCreated(marked) else MarkFailed(marked)] + [])
  }

  /** One row of `billing_checkout_attempts` in the making. */
  class Checkouts {
    const provider: Provider
    var now: int
    var expiresAt: int
    var stage: Stage
    var row: Option<Row>
    var asked: bool
    var paid: bool
    var edges: seq<Edge>

    function View(): World
      reads this
    {
      World(provider, now, expiresAt, stage, row, asked, paid, edges)
    }

    constructor (provider: Provider, now: int, ttl: nat)
      ensures View() == Start(provider, now, ttl)
    {
      this.provider, this.now, expiresAt := provider, now, now + ttl;
      stage, row, asked, paid, edges := Ready, None, false, false, [];
    }

    method Save(newRow: Row)
      modifies this`row, this`edges
      ensures View() == Update(old(View()), newRow)
    {
      if row.Some? && row.value.status != newRow.status {
        edges := edges + [Edge(row.value.status, newRow.status)];
      }
      row := Some(newRow);
    }

    /** `create_checkout`, given what the database and the provider do. */
    method CreateCheckout(enabled: bool, stored: Attempt, minted: Option<string>,
                          marked: Attempt) returns (answer: Answer)
      requires stage == Ready && row == None && Sane(stored) && Sane(marked)
      modifies this
      ensures answer == Unavailable <==> !enabled
      ensures !enabled ==> View() == old(View())
      ensures enabled ==>
                && Runs(old(View()), Script(stored, minted, marked))
                && View() == After(old(View()), Script(stored, minted, marked)) && stage == Done(answer)
      ensures answer.Url? <==> enabled && stored.ok && minted.Some? && marked.ok
      ensures answer == BadGateway <==>
                enabled && stored.ok && (if minted.Some? then !marked.ok else marked.ok)
      ensures answer == ServerError <==> enabled && (!stored.ok || (minted.None? && !marked.ok))
      ensures answer.Url? ==> row == Some(Row(ProviderCreated, minted)) && minted == Some(answer.checkoutId)
      ensures enabled && !stored.reached ==> row == None
      ensures enabled && stored.reached && !(stored.ok && marked.reached) ==> row == Some(Row(Created, None))
      ensures enabled && stored.ok && marked.reached ==>
                row == Some(if minted.Some? then Row(ProviderCreated, minted) else Row(Failed, None))
      ensures enabled ==> asked == (old(asked) || stored.ok)
    {
      if !enabled { return Unavailable; }
      hide Runs, After;
      ghost var w0 := View();
      if stored.reached {
        Save(Row(Created, None));
      }
      stage := if stored.ok then Stored else Done(ServerError);
      ghost var w1 := View();
      assert w1 == Step(w0, Store(stored));
      if !stored.ok {
        RunsNone(w1);
        RunsCons(w0, Store(stored), []);
        return ServerError;
      }
      asked := true;
      stage := if minted.Some? then Minted(minted.value) else Refused;
      ghost var w2 := View();
      ghost var last := if minted.Some? then MarkCreated(marked) else MarkFailed(marked);
      assert w2 == Step(w1, Ask(minted));
      if minted.None? {
        if marked.reached {
          Save(Row(Failed, None));
        }
        answer := if marked.ok then BadGateway else ServerError;
      } else {
        if marked.reached {
          Save(Row(ProviderCreated, minted));
        }
        answer := if marked.ok then Url(minted.value) else BadGateway;
      }
      stage := Done(answer);
      assert View() == Step(w2, last);
      hide Step;
      RunsNone(View());
      RunsCons(w2, last, []);
      RunsCons(w1, Ask(minted), [last] + []);
      RunsCons(w0, Store(stored), [Ask(minted)] + ([last] + []));
    }
  }
}
