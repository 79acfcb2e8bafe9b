/** The Redis copy of a users row: read-through, thirty seconds to live, deleted best-effort
    after a write.  Every Redis call may fail; readers, writers and invalidations of one user
    interleave between any two of their GET, SELECT, SET and DELETE operations. */
module UserCache {
  import opened Options
  import opened CanonicalJson

  /** The columns the cache keeps. */
  datatype User = User(id: string, email: string, googleId: string, name: Option<string>, avatar: Option<string>,
                       credits: int, createdAt: Option<int>)

  const TTL: nat := 30

  // ------------------------------------------------------------------ one user's key

  /** A stored copy: read from the table at `read`, stored at `set`. */
  datatype Entry = Entry(user: User, read: int, stored: int)

  datatype Reader =
    | Missed
    | Selected(user: User, read: int)
    | Returned(row: Option<User>, read: int, at: int)

  /** One row (None: there is none) since some time, until the next write. */
  datatype Write = Write(row: Option<User>, time: int)

  /** `writes` is the history of the row, its current value last; `gap` the longest time any
      reader has taken from its SELECT to the end of its SET. */
  datatype World = World(now: int, writes: seq<Write>, entry: Option<Entry>, readers: seq<Reader>, gap: nat)

  /** `fails`: the GET failed or found an unusable entry.  `reached`: the SET or DELETE took
      effect, whether or not its caller learnt it. */
  datatype Event =
    | Tick(d: nat)
    | Commit(row: Option<User>)
    | Get(fails: bool)
    | Select(r: nat)
    | Set(r: nat, reached: bool)
    | Delete(reached: bool)
    | Drop

  function Start(now: int, row: Option<User>): World {
    World(now, [Write(row, now)], None, [], 0)
  }

  predicate Enabled(w: World, e: Event) {
    match e
    case Select(r) => r < |w.readers| && w.readers[r] == Missed
    case Set(r, _) => r < |w.readers| && w.readers[r].Selected? && w.readers[r].read <= w.now
    case _ => w.writes != []
  }

  function Row(w: World): Option<User>
    requires w.writes != []
  {
    w.writes[|w.writes| - 1].row
  }

  predicate Live(w: World) {
    w.entry.Some? && w.now < w.entry.value.stored + TTL
  }

  function Step(w: World, e: Event): World
    requires Enabled(w, e) && w.writes != []
  {
    match e
    case Tick(d) => w.(now := w.now + d)
    case Commit(row) => w.(writes := w.writes + [Write(row, w.now)])
    case Get(fails) =>
      var hit := !fails && Live(w);
      var reader := if hit then Returned(Some(w.entry.value.user), w.entry.value.read, w.now) else Missed;
      w.(readers := w.readers + [reader])
    case Select(r) =>
      w.(readers := w.readers[r := if Row(w).Some? then Selected(Row(w).value, w.now)
                              else Returned(None, w.now, w.now)])
    case Set(r, reached) =>
      var user, read := w.readers[r].user, w.readers[r].read;
      w.(entry := if reached then Some(Entry(user, read, w.now)) else w.entry,
         readers := w.readers[r := Returned(Some(user), read, w.now)],
         gap := if w.now - read > w.gap then w.now - read else w.gap)
    case Delete(reached) => w.(entry := if reached then None else w.entry)
    case Drop => w.(entry := None)
  }

  predicate Runs(w: World, events: seq<Event>)
    decreases |events|
  {
    events == [] || (w.writes != [] && Enabled(w, events[0]) && Runs(Step(w, events[0]), events[1..]))
  }

  function After(w: World, events: seq<Event>): World
    requires Runs(w, events)
    decreases |events|
  {
    if events == [] then w else After(Step(w, events[0]), events[1..])
  }

  lemma RunsCons(w: World, e: Event, events: seq<Event>)
    requires w.writes != [] && Enabled(w, e) && Runs(Step(w, e), events)
    ensures Runs(w, [e] + events) && After(w, [e] + events) == After(Step(w, e), events)
  {
    assert ([e] + events)[1..] == events;
  }

  lemma RunsOne(w: World, e: Event)
    requires w.writes != [] && Enabled(w, e)
    ensures Runs(w, [e]) && After(w, [e]) == Step(w, e)
  {
    assert Runs(Step(w, e), []);
    RunsCons(w, e, []);
    assert [e] + [] == [e];
  }

  // ------------------------------------------------------------------ bounded staleness

  /** `row` was the row of the table at some moment of tick `u`. */
  ghost predicate WasCurrent(writes: seq<Write>, row: Option<User>, u: int) {
    exists i :: 0 <= i < |writes| && writes[i].row == row && writes[i].time <= u
                && (i + 1 == |writes| || u <= writes[i + 1].time)
  }

  ghost predicate ReaderOk(w: World, reader: Reader) {
    match reader
    case Missed => true
    case Selected(user, read) => read <= w.now && WasCurrent(w.writes, Some(user), read)
    case Returned(row, read, at) => at <= w.now && at - TTL - w.gap < read <= at && WasCurrent(w.writes, row, read)
  }

  ghost predicate Inv(w: World) {
    && w.writes != []
    && w.writes[|w.writes| - 1].time <= w.now
    && (w.entry.Some? ==>
          var e := w.entry.value;
          e.stored - w.gap <= e.read <= e.stored <= w.now && WasCurrent(w.writes, Some(e.user), e.read))
    && (forall r :: 0 <= r < |w.readers| ==> ReaderOk(w, w.readers[r]))
  }

  lemma StaysPast(writes: seq<Write>, next: Write, row: Option<User>, u: int)
    requires WasCurrent(writes, row, u) && u <= next.time
    ensures WasCurrent(writes + [next], row, u)
  {
    var i :| 0 <= i < |writes| && writes[i].row == row && writes[i].time <= u
             && (i + 1 == |writes| || u <= writes[i + 1].time);
    var all := writes + [next];
    assert all[i].row == row && all[i].time <= u && u <= all[i + 1].time;
  }

  lemma StepInv(w: World, e: Event)
    requires Inv(w) && Enabled(w, e)
    ensures Inv(Step(w, e))
  {
    hide WasCurrent;
    var w' := Step(w, e);
    assert WasCurrent(w.writes, Row(w), w.now) by { NowIsCurrent(w); }
    if e.Commit? {
      if w.entry.Some? { StaysPast(w.writes, Write(e.row, w.now), Some(w.entry.value.user), w.entry.value.read); }
    }
    forall r | 0 <= r < |w'.readers| ensures ReaderOk(w', w'.readers[r]) {
      if r < |w.readers| {
        var reader := w.readers[r];
        assert ReaderOk(w, reader);
        if e.Commit? && !reader.Missed? {
          StaysPast(w.writes, Write(e.row, w.now), if reader.Selected? then Some(reader.user) else reader.row,
                    reader.read);
        }
      }
    }
  }

  lemma NowIsCurrent(w: World)
    requires w.writes != [] && w.writes[|w.writes| - 1].time <= w.now
    ensures WasCurrent(w.writes, Row(w), w.now)
  {
    var i := |w.writes| - 1;
    assert w.writes[i].row == Row(w);
  }

  lemma {:induction false} RunInv(w: World, events: seq<Event>)
    requires Inv(w) && Runs(w, events)
    ensures Inv(After(w, events))
    decreases |events|
  {
    hide Inv, Enabled, Step;
    if events != [] {
      StepInv(w, events[0]);
      RunInv(Step(w, events[0]), events[1..]);
    }
  }

  /** In every run, even one in which every invalidation fails: a load that returned at t
      returned what the table held at some instant later than t - 30 - g, where g is the
      longest time any reader took from SELECT to SET. */
  lemma BoundedStaleness(start: int, row: Option<User>, events: seq<Event>, r: nat)
    requires Runs(Start(start, row), events)
    requires var w := After(Start(start, row), events); r < |w.readers| && w.readers[r].Returned?
    ensures var w := After(Start(start, row), events);
            var load := w.readers[r];
            exists u :: load.at - 30 - w.gap < u <= load.at && WasCurrent(w.writes, load.row, u)
  {
    assert Inv(Start(start, row));
    RunInv(Start(start, row), events);
    var w := After(Start(start, row), events);
    assert ReaderOk(w, w.readers[r]);
  }

  /** Some load took exactly this long from its SELECT to the end of its SET. */
  ghost predicate Measured(readers: seq<Reader>, gap: nat) {
    exists r :: 0 <= r < |readers| && readers[r].Returned? && readers[r].at - readers[r].read == gap
  }

  lemma StepMeasured(w: World, e: Event)
    requires w.writes != [] && Enabled(w, e) && (w.gap > 0 ==> Measured(w.readers, w.gap))
    ensures var w' := Step(w, e); w'.writes != [] && (w'.gap > 0 ==> Measured(w'.readers, w'.gap))
  {
    var w' := Step(w, e);
    if w'.gap > 0 {
      if w'.gap == w.gap {
        var r :| 0 <= r < |w.readers| && w.readers[r].Returned? && w.readers[r].at - w.readers[r].read == w.gap;
        assert w'.readers[r] == w.readers[r];
      } else {
        assert w'.readers[e.r].at - w'.readers[e.r].read == w'.gap;
      }
    }
  }

  lemma {:induction false} RunMeasured(w: World, events: seq<Event>)
    requires w.writes != [] && Runs(w, events) && (w.gap > 0 ==> Measured(w.readers, w.gap))
    ensures var w' := After(w, events); w'.gap > 0 ==> Measured(w'.readers, w'.gap)
    decreases |events|
  {
    hide Measured, Step, Enabled;
    if events != [] {
      StepMeasured(w, events[0]);
      RunMeasured(Step(w, events[0]), events[1..]);
    }
  }

  /** The g of that bound is no more than what happened: it is zero, or the time of some load. */
  lemma GapIsMeasured(start: int, row: Option<User>, events: seq<Event>)
    requires Runs(Start(start, row), events)
    ensures var w := After(Start(start, row), events); w.gap > 0 ==> Measured(w.readers, w.gap)
  {
    RunMeasured(Start(start, row), events);
  }

  // ------------------------------------------------------------------ after an invalidation

  /** Nothing that could still be returned or stored differs from the table. */
  ghost predicate Coherent(w: World) {
    && w.writes != []
    && (w.entry.Some? ==> Row(w) == Some(w.entry.value.user))
    && NoOlderReader(w)
  }

  /** No reader that has SELECTed and not yet SET holds anything but the current row. */
  ghost predicate NoOlderReader(w: World)
    requires w.writes != []
  {
    forall r :: 0 <= r < |w.readers| && w.readers[r].Selected? ==> Row(w) == Some(w.readers[r].user)
  }

  predicate NoWrites(events: seq<Event>) {
    forall i :: 0 <= i < |events| ==> !events[i].Commit?
  }

  /** Every load that returns in the course of `events` returns the row of `w`. */
  ghost predicate AllFresh(w: World, events: seq<Event>)
    requires w.writes != [] && Runs(w, events)
  {
    var w' := After(w, events);
    forall r :: 0 <= r < |w'.readers| && w'.readers[r].Returned? && (r < |w.readers| ==> !w.readers[r].Returned?)
      ==> w'.readers[r].row == Row(w)
  }

  lemma CoherentStep(w: World, e: Event)
    requires Coherent(w) && Enabled(w, e) && !e.Commit?
    ensures Coherent(Step(w, e)) && Row(Step(w, e)) == Row(w)
    ensures |w.readers| <= |Step(w, e).readers|
    ensures var w' := Step(w, e);
            forall r ::
              0 <= r < |w'.readers| && w'.readers[r].Returned? && (r < |w.readers| ==> !w.readers[r].Returned?)
              ==> w'.readers[r].row == Row(w)
    ensures forall r :: 0 <= r < |w.readers| && w.readers[r].Returned? ==> Step(w, e).readers[r] == w.readers[r]
  {}

  lemma {:induction false} CoherentRun(w: World, events: seq<Event>)
    requires Coherent(w) && Runs(w, events) && NoWrites(events)
    ensures AllFresh(w, events)
    ensures var w' := After(w, events);
            && |w.readers| <= |w'.readers|
            && forall r :: 0 <= r < |w.readers| && w.readers[r].Returned? ==> w'.readers[r] == w.readers[r]
    decreases |events|
  {
    hide Coherent, Step, Enabled;
    if events != [] {
      CoherentStep(w, events[0]);
      assert w.writes != [];
      CoherentRun(Step(w, events[0]), events[1..]);
    }
  }

  /** Right after a DELETE that took effect, every later load returns the current row until the
      next write, on every schedule, exactly when no older reader is still pending. */
  lemma DeleteRefreshes(w: World)
    requires Inv(w) && w.entry == None
    ensures NoOlderReader(w) <==> forall events :: Runs(w, events) && NoWrites(events) ==> AllFresh(w, events)
  {
    if NoOlderReader(w) {
      forall events | Runs(w, events) && NoWrites(events) ensures AllFresh(w, events) {
        CoherentRun(w, events);
      }
    } else {
      var r: nat :| r < |w.readers| && w.readers[r].Selected? && Row(w) != Some(w.readers[r].user);
      assert ReaderOk(w, w.readers[r]);
      StaleReload(w, r);
    }
  }

  /** An older reader that finishes after the invalidation puts its old copy back, and the next
      load returns it. */
  lemma StaleReload(w: World, r: nat)
    requires w.writes != [] && r < |w.readers| && w.readers[r].Selected? && w.readers[r].read <= w.now
    requires Row(w) != Some(w.readers[r].user)
    ensures var events := [Set(r, true), Get(false)];
            && Runs(w, events) && NoWrites(events) && !AllFresh(w, events)
            && var w' := After(w, events);
               && |w'.readers| == |w.readers| + 1 && w'.readers[|w.readers|].Returned?
               && w'.readers[|w.readers|].row == Some(w.readers[r].user)
  {
    var events := [Set(r, true), Get(false)];
    var w1 := Step(w, Set(r, true));
    var w2 := Step(w1, Get(false));
    assert events[1..] == [Get(false)] && events[1..][1..] == [];
    assert Runs(w2, []) && Runs(w1, [Get(false)]);
    assert After(w1, [Get(false)]) == w2;
    assert w2.readers[|w.readers|].row == Some(w.readers[r].user);
  }

  /** A load that misses and SELECTs, then a write and its invalidation. */
  function Overtaken(after: Option<User>): seq<Event> {
    [Get(false)] + ([Select(0)] + ([Commit(after)] + ([Delete(true)] + [])))
  }

  /** The schedule does occur: a load that began before the write finishes after the
      invalidation, and the next load returns the row the write replaced. */
  lemma StaleReloadHappens(start: int, before: User, after: Option<User>)
    requires after != Some(before)
    ensures Runs(Start(start, Some(before)), Overtaken(after))
    ensures var w := After(Start(start, Some(before)), Overtaken(after));
            && Inv(w) && w.entry == None && Row(w) == after && !NoOlderReader(w)
            && var events := [Set(0, true), Get(false)];
               && Runs(w, events) && NoWrites(events) && !AllFresh(w, events)
               && After(w, events).readers[1] == Returned(Some(before), start, start)
  {
    var w := Start(start, Some(before));
    var w1 := Step(w, Get(false));
    var w2 := Step(w1, Select(0));
    var w3 := Step(w2, Commit(after));
    var w4 := Step(w3, Delete(true));
    assert Runs(w4, []) && After(w4, []) == w4;
    assert w4.readers == [Selected(before, start)];
    RunsCons(w3, Delete(true), []);
    RunsCons(w2, Commit(after), [Delete(true)] + []);
    RunsCons(w1, Select(0), [Commit(after)] + ([Delete(true)] + []));
    RunsCons(w, Get(false), [Select(0)] + ([Commit(after)] + ([Delete(true)] + [])));
    RunInv(w, Overtaken(after));
    StaleReload(w4, 0);
    RunsOne(Step(w4, Set(0, true)), Get(false));
    RunsCons(w4, Set(0, true), [Get(false)]);
    assert [Set(0, true)] + [Get(false)] == [Set(0, true), Get(false)];
  }

  // ------------------------------------------------------------------ the stored form

  /** UUIDs and time stamps as text; a printed one reads back. */
  datatype Texts = Texts(canonicalId: string -> Option<string>, isoTime: int -> string, readTime: string -> Option<int>)

  ghost predicate Faithful(t: Texts, u: User) {
    t.canonicalId(u.id) == Some(u.id) && forall time :: t.readTime(t.isoTime(time)) == Some(time)
  }

  function Nullable(s: Option<string>): Json {
    if s.Some? then Str(s.value) else Null
  }

  /** `_serialize_user`, its keys in the order they are inserted. */
  function Serialize(t: Texts, u: User): Fields {
    Field("id", Str(u.id), Field("email", Str(u.email), Field("google_id", Str(u.googleId),
    Field("name", Nullable(u.name), Field("avatar_url", Nullable(u.avatar), Field("credit_balance", Num(u.credits),
    if u.createdAt.Some? then Field("created_at", Str(t.isoTime(u.createdAt.value)), NoFields) else NoFields))))))
  }

  /** What `_cache_user` stores: `json.dumps` with its default separators. */
  function StoredText(t: Texts, u: User): string {
    Render(Obj(Serialize(t, u)), " ")
  }

  /** The dict of an object; a repeated key keeps its last value. */
  function DictOf(fields: Fields): map<string, Json> {
    match fields
    case NoFields => map[]
    case Field(name, value, rest) =>
      var later := DictOf(rest);
      if name in later then later else later[name := value]
  }

  /** A nullable text column of a stored copy. */
  function Column(j: Json): Option<Option<string>> {
    match j
    case Null => Some(None)
    case Str(s) => Some(Some(s))
    case _ => None
  }

  const COLUMNS: set<string> := {"id", "email", "google_id", "name", "avatar_url", "credit_balance"}

  /** `_deserialize_user` on a stored dict: None when it raises.  A copy that lacks a column,
      or holds one of the wrong shape, is unusable. */
  function Deserialize(t: Texts, d: map<string, Json>): Option<User> {
    if !(COLUMNS <= d.Keys) then None
    else
      var name, avatar := Column(d["name"]), Column(d["avatar_url"]);
      if !d["id"].Str? || !d["email"].Str? || !d["google_id"].Str? || name.None? || avatar.None?
         || !d["credit_balance"].Num? then None
      else
        var id := t.canonicalId(d["id"].s);
        if id.None? then None
        else if "created_at" in d && d["created_at"].Str? then
          var time := t.readTime(d["created_at"].s);
          if time.None? then None
          else Some(User(id.value, d["email"].s, d["google_id"].s, name.value, avatar.value, d["credit_balance"].n,
                         time))
        else Some(User(id.value, d["email"].s, d["google_id"].s, name.value, avatar.value, d["credit_balance"].n, None))
  }

  /** What `_cached_user` makes of the text it got: None is a miss. */
  function ReadCopy(t: Texts, raw: string): Option<User> {
    match Loads(raw)
    case Some(Obj(fields)) => Deserialize(t, DictOf(fields))
    case _ => None
  }

  lemma TimeBack(t: Texts, u: User, time: int)
    requires Faithful(t, u)
    ensures t.readTime(t.isoTime(time)) == Some(time)
  {}

  lemma DictOfField(name: string, value: Json, rest: Fields)
    requires name !in DictOf(rest)
    ensures DictOf(Field(name, value, rest)) == DictOf(rest)[name := value]
  {}

  /** Fields whose names differ are all in the dict, with their own values. */
  lemma DictOfSix(a: string, u: Json, b: string, v: Json, c: string, w: Json, d: string, x: Json, e: string, y: Json,
                  f: string, z: Json, rest: Fields)
    requires |a| < |d| < |b| < |c| < |e| < |f|
    requires forall k :: k in DictOf(rest) ==> |k| == |e| && k != e
    ensures var dict := DictOf(Field(a, u, Field(b, v, Field(c, w, Field(d, x, Field(e, y, Field(f, z, rest)))))));
            && {a, b, c, d, e, f} <= dict.Keys
            && dict[a] == u && dict[b] == v && dict[c] == w && dict[d] == x && dict[e] == y && dict[f] == z
            && forall k :: |k| == |e| && k != e ==>
                 (k in dict <==> k in DictOf(rest)) && (k in dict ==> dict[k] == DictOf(rest)[k])
  {
    hide DictOf;
    var f6 := Field(f, z, rest);
    var f5 := Field(e, y, f6);
    var f4 := Field(d, x, f5);
    var f3 := Field(c, w, f4);
    var f2 := Field(b, v, f3);
    DictOfField(f, z, rest);
    DictOfField(e, y, f6);
    DictOfField(d, x, f5);
    DictOfField(c, w, f4);
    DictOfField(b, v, f3);
    DictOfField(a, u, f2);
  }

  lemma SerializedColumns(t: Texts, u: User)
    ensures var d := DictOf(Serialize(t, u));
            && COLUMNS <= d.Keys
            && d["id"] == Str(u.id) && d["email"] == Str(u.email) && d["google_id"] == Str(u.googleId)
            && d["name"] == Nullable(u.name) && d["avatar_url"] == Nullable(u.avatar)
            && d["credit_balance"] == Num(u.credits)
            && ("created_at" in d <==> u.createdAt.Some?)
            && (u.createdAt.Some? ==> d["created_at"] == Str(t.isoTime(u.createdAt.value)))
  {
    var last := if u.createdAt.Some? then Field("created_at", Str(t.isoTime(u.createdAt.value)), NoFields)
                else NoFields;
    assert DictOf(last) == if u.createdAt.Some? then map["created_at" := Str(t.isoTime(u.createdAt.value))] else map[];
    assert "created_at"[0] != "avatar_url"[0];
    hide DictOf, Nullable;
    DictOfSix("id", Str(u.id), "email", Str(u.email), "google_id", Str(u.googleId), "name", Nullable(u.name),
              "avatar_url", Nullable(u.avatar), "credit_balance", Num(u.credits), last);
  }

  /** The stored text reads back as the row it was made from, column for column. */
  lemma StoredCopyReadsBack(t: Texts, u: User)
    requires Faithful(t, u)
    ensures ReadCopy(t, StoredText(t, u)) == Some(u)
  {
    LoadsRender(Obj(Serialize(t, u)), " ");
    SerializedColumns(t, u);
    hide Serialize, DictOf, Loads, Render;
    if u.createdAt.Some? {
      TimeBack(t, u, u.createdAt.value);
    }
    assert Column(Nullable(u.name)) == Some(u.name) && Column(Nullable(u.avatar)) == Some(u.avatar);
  }

  // ------------------------------------------------------------------ one request

  /** What the environment does to one load. */
  datatype Faults = Faults(getFails: bool, setReached: bool)

  /** The steps of one uninterrupted load. */
  function LoadScript(w: World, f: Faults): seq<Event>
    requires w.writes != []
  {
    var n := |w.readers|;
    if !f.getFails && Live(w) then [Get(false)]
    else if Row(w).None? then [Get(f.getFails), Select(n)]
    else [Get(f.getFails), Select(n), Set(n, f.setReached)]
  }

  /** An uninterrupted load returns the live copy, or else the row, which it stores. */
  lemma LoadRuns(w: World, f: Faults)
    requires w.writes != []
    ensures Runs(w, LoadScript(w, f))
    ensures var hit, w' := !f.getFails && Live(w), After(w, LoadScript(w, f));
            && |w'.readers| == |w.readers| + 1 && w'.readers[|w.readers|].Returned?
            && w'.readers[|w.readers|].row == (if hit then Some(w.entry.value.user) else Row(w))
            && w'.entry == (if !hit && Row(w).Some? && f.setReached
                            then Some(Entry(Row(w).value, w.now, w.now)) else w.entry)
  {
    var n := |w.readers|;
    var w1 := Step(w, Get(f.getFails));
    if !f.getFails && Live(w) {
      RunsOne(w, Get(false));
    } else if Row(w).None? {
      RunsOne(w1, Select(n));
      RunsCons(w, Get(f.getFails), [Select(n)]);
      assert [Get(f.getFails)] + [Select(n)] == LoadScript(w, f);
    } else {
      var w2 := Step(w1, Select(n));
      RunsOne(w2, Set(n, f.setReached));
      RunsCons(w1, Select(n), [Set(n, f.setReached)]);
      RunsCons(w, Get(f.getFails), [Select(n)] + [Set(n, f.setReached)]);
      assert [Get(f.getFails)] + ([Select(n)] + [Set(n, f.setReached)]) == LoadScript(w, f);
    }
  }

  /** `request.state`, as far as authentication uses it. */
  class RequestState {
    var memo: Option<User>

    constructor ()
      ensures memo == None
    {
      memo := None;
    }
  }

  /** The shared Redis keyspace and the users table, seen from one process. */
  class Auth {
    var entries: map<string, Entry>
    var rows: map<string, User>

    predicate Valid()
      reads this
    {
      && (forall k :: k in entries ==> entries[k].user.id == k)
      && (forall k :: k in rows ==> rows[k].id == k)
    }

    function RowOf(id: string): Option<User>
      reads this
    {
      if id in rows then Some(rows[id]) else None
    }

    /** The world of one key. */
    function View(id: string, now: int): World
      reads this
    {
      World(now, [Write(RowOf(id), now)], if id in entries then Some(entries[id]) else None, [], 0)
    }

    constructor (rows: map<string, User>)
      requires forall k :: k in rows ==> rows[k].id == k
      ensures Valid() && entries == map[] && this.rows == rows
    {
      entries := map[];
      this.rows := rows;
    }

    method CachedUser(id: string, now: int, fails: bool) returns (user: Option<User>)
      ensures user == if !fails && Live(View(id, now)) then Some(entries[id].user) else None
    {
      if fails || id !in entries || now >= entries[id].stored + TTL {
        return None;
      }
      return Some(entries[id].user);
    }

    method CacheUser(user: User, now: int, reached: bool)
      requires Valid()
      modifies this`entries
      ensures Valid() && entries == if reached then old(entries)[user.id := Entry(user, now, now)] else old(entries)
    {
      if reached {
        entries := entries[user.id := Entry(user, now, now)];
      }
    }

    method InvalidateUserCache(id: string, reached: bool)
      requires Valid()
      modifies this`entries
      ensures Valid() && entries == if reached then old(entries) - {id} else old(entries)
    {
      if reached {
        entries := entries - {id};
      }
    }

    /** `_load_user`, uninterrupted: exactly the load the protocol describes, on this key. */
    method LoadUser(id: string, now: int, f: Faults) returns (user: Option<User>)
      requires Valid()
      modifies this`entries
      ensures Valid() && (user.Some? ==> user.value.id == id)
      ensures var hit := !f.getFails && id in old(entries) && now < old(entries)[id].stored + 30;
              && user == (if hit then Some(old(entries)[id].user) else old(RowOf(id)))
              && entries == if !hit && user.Some? && f.setReached
                            then old(entries)[id := Entry(user.value, now, now)] else old(entries)
      ensures Runs(old(View(id, now)), LoadScript(old(View(id, now)), f))
      ensures var w := After(old(View(id, now)), LoadScript(old(View(id, now)), f));
              && w.readers != [] && w.readers[0].Returned? && user == w.readers[0].row
              && View(id, now).entry == w.entry
      ensures forall k :: k != id ==>
                (k in entries <==> k in old(entries)) && (k in entries ==> entries[k] == old(entries)[k])
    {
      LoadRuns(View(id, now), f);
      user := CachedUser(id, now, f.getFails);
      if user.Some? {
        return;
      }
      user := RowOf(id);
      if user.Some? {
        CacheUser(user.value, now, f.setReached);
      }
    }

    /** `get_current_user` once the token's subject is known: the memo answers only for its own
        user, and a user once resolved stays the request's user.  None is the 401. */
    method GetCurrentUser(request: RequestState, id: string, now: int, f: Faults) returns (user: Option<User>)
      requires Valid()
      modifies this`entries, request
      ensures Valid()
      ensures user.Some? ==> user.value.id == id && request.memo == user
      ensures user.None? ==> request.memo == old(request.memo)
      ensures old(request.memo).Some? && old(request.memo).value.id == id ==>
                user == old(request.memo) && entries == old(entries)
      ensures !(old(request.memo).Some? && old(request.memo).value.id == id) ==>
                && var script := LoadScript(old(View(id, now)), f);
                   && (user.Some? <==> (!f.getFails && Live(old(View(id, now)))) || old(RowOf(id)).Some?)
                   && Runs(old(View(id, now)), script)
                   && var w := After(old(View(id, now)), script);
                      && w.readers != [] && w.readers[0].Returned? && user == w.readers[0].row
                      && View(id, now).entry == w.entry
      ensures forall k :: k != id ==>
                (k in entries <==> k in old(entries)) && (k in entries ==> entries[k] == old(entries)[k])
    {
      if request.memo.Some? && request.memo.value.id == id {
        return request.memo;
      }
      LoadRuns(View(id, now), f);
      user := LoadUser(id, now, f);
      if user.None? {
        return None;
      }
      request.memo := user;
    }
  }
}
