/** Client and server together: how long a stale export can keep an attachment with automatic rebind away. */
module Recovery {
  import opened Text
  import opened OrderedDict
  import opened Devices
  import opened UsbipClient
  import opened Backoff
  import opened ClientState
  import opened Registry
  import opened Runs
  import opened Attention

  /** The client's state, where the one device is, and what the driver of that server says about it. */
  datatype World = World(s: State, server: Id, busid: string, device: Status)

  /** One look of the watchdog at the record: what a tick gives it. */
  datatype Visit = Visit(live: map<Port, string>, a: Answers)

  function VisitOf(tick: Tick, id: Id): Visit {
    Visit(tick.live, tick.answers(id))
  }

  /** The request is for a rebind of this very device. */
  predicate AsksFor(e: Effect, server: Id, busid: string) {
    e.AskedRebind? && e.server == server && e.busid == busid
  }

  /** In coming from `w` to the state `t` a rebind of the device was requested. */
  predicate Asked(w: World, t: State) {
    |t.trace| > |w.s.trace| && AsksFor(t.trace[|t.trace| - 1], w.server, w.busid)
  }

  predicate CameBack(s: State, t: State, id: Id) {
    |t.trace| > |s.trace| && t.trace[|t.trace| - 1].Reattached? && t.trace[|t.trace| - 1].id == id
  }

  /** One visit; a request for a rebind of the device reaches its server and succeeds, an attach takes the device. */
  function Next(w: World, id: Id, v: Visit): World {
    if id !in w.s.attachments.entries then w
    else
      var t := Visited(w.s, id, w.s.attachments.entries[id], v.live, v.a);
      w.(s := t, device := if Asked(w, t) then Rebind(w.device).0 else if CameBack(w.s, t, id) then SharedInUse else w.device)
  }

  /** The only obstacle is the export: the device has not moved, is refused as busy while in use, and else attaches. */
  ghost predicate OnlyTheExport(w: World, att: Record, v: Visit) {
    && !IsLive(att, v.live)
    && FindRelocated(v.a.fetch(0), att.serial, att.busid).None?
    && (w.device.SharedInUse? ==> v.a.attach(0).CommandError? && IsBusyError(v.a.attach(0).output))
    && (w.device.SharedIdle? ==> v.a.attach(0).Attached?)
  }

  /** A direct attachment of the device, its server registered, with both automatic options on, `n` failures behind it. */
  ghost predicate Waiting(w: World, id: Id, n: nat) {
    && id in w.s.attachments.entries
    && var att := w.s.attachments.entries[id];
    && att.autoFailover && att.autoRebind && att.group.None? && att.server in w.s.servers
    && att.server == w.server && att.busid == w.busid
    && OnSchedule(att) && att.failures == n
    && (w.device.SharedInUse? || w.device.SharedIdle?)
    && n <= REBIND_AFTER && (n == REBIND_AFTER ==> w.device.SharedIdle?)
  }

  lemma SkippedVisit(w: World, id: Id, v: Visit, n: nat)
    requires Waiting(w, id, n) && ShouldSkip(w.s.attachments.entries[id], v.a.now)
    ensures Next(w, id, v) == w
  {
  }

  /** While the export is stale an attempt fails; the sixth, or an early busy one, clears the export. */
  lemma StaleVisit(w: World, id: Id, v: Visit, n: nat)
    requires Waiting(w, id, n) && w.device.SharedInUse?
    requires OnlyTheExport(w, w.s.attachments.entries[id], v) && !ShouldSkip(w.s.attachments.entries[id], v.a.now)
    ensures Waiting(Next(w, id, v), id, n + 1)
    ensures Next(w, id, v).s.attachments.entries[id] == Bumped(w.s.attachments.entries[id], v.a.now)
    ensures !CameBack(w.s, Next(w, id, v).s, id)
  {
    var att := w.s.attachments.entries[id];
    FailureKeepsSchedule(att, v.a.now);
    var noted := FailureNoted(w.s, id, v.a.now);
    var t := DirectFailed(w.s, id, att, att.busid, v.a.attach(0).output, v.a);
    assert Visited(w.s, id, att, v.live, v.a) == t;
    assert t.attachments == noted.attachments;
    assert noted.trace[|noted.trace| - 1] == AttemptFailed(id, v.a.now);
    RebindClearsTheExport(w.device);
  }

  /** The startup fast path: the very first busy refusal after a reboot already clears the export, once per process. */
  lemma BusyAtStartupClears(w: World, id: Id, v: Visit)
    requires Waiting(w, id, 0) && w.device.SharedInUse? && OnlyTheExport(w, w.s.attachments.entries[id], v)
    requires v.a.uptime < STARTUP_GRACE
    ensures Next(w, id, v).device == (if id in w.s.startup then SharedInUse else SharedIdle)
    ensures id in Next(w, id, v).s.startup
  {
    var att := w.s.attachments.entries[id];
    var t := DirectFailed(w.s, id, att, att.busid, v.a.attach(0).output, v.a);
    var noted := FailureNoted(w.s, id, v.a.now);
    assert Visited(w.s, id, att, v.live, v.a) == t;
    assert noted.attachments.entries[id].failures == 1;
    assert noted.trace[|noted.trace| - 1] == AttemptFailed(id, v.a.now);
    RebindClearsTheExport(w.device);
  }

  /** Once it is cleared the next attempt succeeds. */
  lemma ClearVisit(w: World, id: Id, v: Visit, n: nat)
    requires Waiting(w, id, n) && w.device.SharedIdle?
    requires OnlyTheExport(w, w.s.attachments.entries[id], v) && !ShouldSkip(w.s.attachments.entries[id], v.a.now)
    ensures CameBack(w.s, Next(w, id, v).s, id)
    ensures id in Next(w, id, v).s.attachments.entries && Next(w, id, v).s.attachments.entries[id].failures == 0
  {
    var att := w.s.attachments.entries[id];
    DirectBackEffect(w.s, id, att, att.busid, v.a.attach(0), v.a);
  }

  /** Latest time of the n-th failure, counted from the first, apart from tick slack. */
  function Budget(n: nat): int
    requires 1 <= n <= 7
  {
    if n <= 3 then 0 else if n == 4 then 60 else if n == 5 then 180 else if n == 6 then 420 else 900
  }

  function Pause(n: nat): int {
    if n < THRESHOLD then 0 else Delay(n)
  }

  lemma BudgetGrows(n: nat)
    requires 1 <= n <= 6
    ensures Budget(n) + Pause(n) == Budget(n + 1)
  {
    DelayValues();
  }

  /**
   * The search for recovery, first visit at `first`, latest at `last`: `n` failures so far, the latest of them
   * within its budget, and the latest visit either that failure or one skipped while backing off after it.
   */
  ghost predicate Searching(w: World, id: Id, first: int, last: int, interval: int, n: nat) {
    && Waiting(w, id, n) && n >= 1
    && var f := w.s.attachments.entries[id].lastFailure.value;
    && first <= f <= first + Budget(n) + (n - 1) * interval
    && first <= last && (last == f || last < f + Pause(n))
  }

  lemma FirstVisitFails(w: World, id: Id, v: Visit, interval: int)
    requires Waiting(w, id, 0) && w.device.SharedInUse? && OnlyTheExport(w, w.s.attachments.entries[id], v)
    ensures Searching(Next(w, id, v), id, v.a.now, v.a.now, interval, 1)
    ensures !CameBack(w.s, Next(w, id, v).s, id)
  {
    StaleVisit(w, id, v, 0);
  }

  /** One more visit: it brings the attachment back in time, or the search goes on with `m` failures. */
  lemma NextVisit(w: World, id: Id, first: int, last: int, interval: int, n: nat, v: Visit) returns (m: nat)
    requires Searching(w, id, first, last, interval, n) && 0 <= interval && last <= v.a.now <= last + interval
    requires OnlyTheExport(w, w.s.attachments.entries[id], v)
    ensures
      if CameBack(w.s, Next(w, id, v).s, id) then v.a.now <= first + 900 + 6 * interval
      else Searching(Next(w, id, v), id, first, v.a.now, interval, m)
  {
    var att := w.s.attachments.entries[id];
    m := n;
    if ShouldSkip(att, v.a.now) {
      SkippedVisit(w, id, v, n);
    } else {
      AttemptInBudget(att.lastFailure.value, first, last, v.a.now, interval, n);
      if w.device.SharedInUse? {
        StaleVisit(w, id, v, n);
        m := n + 1;
      } else {
        ClearVisit(w, id, v, n);
      }
    }
  }

  lemma AttemptInBudget(f: int, first: int, last: int, now: int, interval: int, n: nat)
    requires 1 <= n <= 6 && 0 <= interval && now <= last + interval
    requires f <= first + Budget(n) + (n - 1) * interval && (last == f || last < f + Pause(n))
    ensures now <= first + Budget(n + 1) + n * interval <= first + 900 + 6 * interval
  {
    BudgetGrows(n);
    if n >= THRESHOLD { DelayIsMonotone(n, n); }
  }

  /** The search cannot outlast its budget. */
  lemma SearchIsShort(w: World, id: Id, first: int, last: int, interval: int, n: nat)
    requires Searching(w, id, first, last, interval, n) && 0 <= interval
    ensures last < first + 900 + 6 * interval
  {
    BudgetGrows(n);
    if n >= THRESHOLD { DelayIsMonotone(n, n); }
  }

  // -------------------------------------------------------- ticks of all records

  /** What the effects noted of one record have done to the device by then. */
  ghost function StatusAfter(start: Status, server: Id, busid: string, own: seq<Effect>): Status {
    if own == [] then start
    else
      var before, last := StatusAfter(start, server, busid, own[..|own| - 1]), own[|own| - 1];
      if AsksFor(last, server, busid) then Rebind(before).0 else if last.Reattached? then SharedInUse else before
  }

  /** A whole tick, over all records of the store; the device answers to this record's own effects that are about it. */
  ghost function TickWorld(w: World, id: Id, tick: Tick): World
    requires w.s.attachments.Valid()
  {
    var t := Ticked(w.s, tick.live, tick.answers);
    w.(s := t, device := StatusAfter(w.device, w.server, w.busid, NewOwn(w.s, t, id)))
  }

  /** The two worlds are one as far as `id` can see. */
  ghost predicate Agree(w: World, u: World, id: Id) {
    && w.server == u.server && w.busid == u.busid && w.device == u.device && w.s.servers == u.s.servers
    && (if id in w.s.attachments.entries then Untouched(u.s, id, w.s.attachments.entries[id]) else id !in u.s.attachments.entries)
    && (id in w.s.startup <==> id in u.s.startup)
  }

  lemma VisitStatus(w: World, id: Id, v: Visit)
    requires id in w.s.attachments.entries && Restorable(w.s, id, w.s.attachments.entries[id], v.a)
    requires w.s.attachments.entries[id].group.None?
    ensures Next(w, id, v).device == StatusAfter(w.device, w.server, w.busid, NewOwn(w.s, Next(w, id, v).s, id))
    ensures CameBack(w.s, Next(w, id, v).s, id) <==> NewOwn(w.s, Next(w, id, v).s, id) == [Reattached(id, v.a.now)]
  {
    var att := w.s.attachments.entries[id];
    if !IsLive(att, v.live) && !ShouldSkip(att, v.a.now) {
      var (t, r) := Restore(w.s, id, att, v.a);
      RestoreNotesEffects(w.s, id, att, v.a);
      NotedStatus(w, id, att, v.a, t, r);
    }
  }

  lemma NotedStatus(w: World, id: Id, att: Record, a: Answers, t: State, r: Restored)
    requires RestoreNotes(w.s, id, att, a, t, r) && att.group.None?
    ensures (if Asked(w, t) then Rebind(w.device).0 else if CameBack(w.s, t, id) then SharedInUse else w.device) ==
      StatusAfter(w.device, w.server, w.busid, NewOwn(w.s, t, id))
    ensures CameBack(w.s, t, id) <==> NewOwn(w.s, t, id) == [Reattached(id, a.now)]
  {
    match r
    case GaveUp =>
    case Back =>
      var e := t.trace[|w.s.trace|];
      assert t.trace == w.s.trace + [e];
      OwnSnoc(w.s.trace, e, id);
      assert [e][..0] == [];
    case Failed =>
      var failed := AttemptFailed(id, a.now);
      OwnSnoc(w.s.trace, failed, id);
      assert [failed][..0] == [];
      if |t.trace| == |w.s.trace| + 2 {
        var ask := t.trace[|w.s.trace| + 1];
        assert t.trace == w.s.trace + [failed] + [ask];
        OwnSnoc(w.s.trace + [failed], ask, id);
        assert NewOwn(w.s, t, id) == [failed, ask];
        AskedAfterFailure(w.device, w.server, w.busid, failed, ask);
      } else {
        assert t.trace == w.s.trace + [failed];
      }
  }

  lemma AskedAfterFailure(start: Status, server: Id, busid: string, failed: Effect, ask: Effect)
    requires failed.AttemptFailed? && ask.AskedRebind?
    ensures StatusAfter(start, server, busid, [failed, ask]) == if AsksFor(ask, server, busid) then Rebind(start).0 else start
  {
    assert [failed, ask][..1] == [failed] && [failed][..0] == [];
    assert StatusAfter(start, server, busid, [failed]) == start;
  }

  /** For one direct record a tick amounts to one visit, whatever the visits to the other records do. */
  lemma TickIsVisit(w: World, id: Id, tick: Tick) returns (u: World)
    requires Sound(w.s) && TickFresh(w.s, w.s.attachments, 0, tick.answers)
    requires id in w.s.attachments.entries && w.s.attachments.entries[id].group.None?
    ensures Agree(w, u, id) && Agree(Next(u, id, VisitOf(tick, id)), TickWorld(w, id, tick), id)
    ensures CameBack(u.s, Next(u, id, VisitOf(tick, id)).s, id) <==>
      NewOwn(w.s, TickWorld(w, id, tick).s, id) == [Reattached(id, tick.answers(id).now)]
  {
    var s := TickVisits(w.s, tick.live, tick.answers, id);
    u := w.(s := s);
    VisitStatus(u, id, VisitOf(tick, id));
    AgreesAround(w, u, Next(u, id, VisitOf(tick, id)), Ticked(w.s, tick.live, tick.answers), id);
  }

  /** From `u` to `v` the visit, before and after it what does not concern `id`. */
  lemma AgreesAround(w: World, u: World, v: World, end: State, id: Id)
    requires Beside(w.s, u.s, id) && Beside(v.s, end, id) && u == w.(s := u.s) && v == u.(s := v.s, device := v.device)
    requires v.device == StatusAfter(u.device, u.server, u.busid, NewOwn(u.s, v.s, id))
    ensures NewOwn(w.s, end, id) == NewOwn(u.s, v.s, id)
    ensures Agree(v, w.(s := end, device := StatusAfter(w.device, w.server, w.busid, NewOwn(w.s, end, id))), id)
  {
  }

  ghost function WorldAt(w0: World, id: Id, ticks: seq<Tick>, k: nat): World
    requires k <= |ticks|
  {
    if k == 0 then w0
    else
      var before := WorldAt(w0, id, ticks, k - 1);
      if before.s.attachments.Valid() then TickWorld(before, id, ticks[k - 1]) else before
  }

  /** The store of these worlds is that of the ticks. */
  lemma {:induction false} WorldIsAfterTicks(w0: World, id: Id, ticks: seq<Tick>, k: nat)
    requires k <= |ticks|
    ensures WorldAt(w0, id, ticks, k).s == AfterTicks(w0.s, ticks[..k])
  {
    if k > 0 {
      WorldIsAfterTicks(w0, id, ticks, k - 1);
      OneMoreWorld(w0, id, ticks, k, WorldAt(w0, id, ticks, k - 1));
    }
  }

  lemma OneMoreWorld(w0: World, id: Id, ticks: seq<Tick>, k: nat, before: World)
    requires 0 < k <= |ticks| && before == WorldAt(w0, id, ticks, k - 1) && before.s == AfterTicks(w0.s, ticks[..k - 1])
    ensures WorldAt(w0, id, ticks, k).s == AfterTicks(w0.s, ticks[..k])
  {
    assert ticks[..k][..k - 1] == ticks[..k - 1];
  }

  /** Tick `k` brought the attachment back. */
  ghost predicate BackAt(w0: World, id: Id, ticks: seq<Tick>, k: nat)
    requires k < |ticks|
  {
    NewOwn(WorldAt(w0, id, ticks, k).s, WorldAt(w0, id, ticks, k + 1).s, id) == [Reattached(id, Times(ticks, id)[k])]
  }

  ghost predicate BackBy(w0: World, id: Id, ticks: seq<Tick>, k: nat)
    requires k <= |ticks|
  {
    exists j :: 0 <= j < k && BackAt(w0, id, ticks, j)
  }

  /** Until the attachment is back, the export is all that stands in its way. */
  ghost predicate OnlyObstacle(w0: World, id: Id, ticks: seq<Tick>) {
    forall k :: 0 <= k < |ticks| && !BackBy(w0, id, ticks, k) ==>
      var w := WorldAt(w0, id, ticks, k);
      id in w.s.attachments.entries ==> OnlyTheExport(w, w.s.attachments.entries[id], VisitOf(ticks[k], id))
  }

  /** Looks at the record come no further apart than `interval`. */
  ghost predicate Steady(times: seq<int>, interval: int) {
    0 <= interval && forall k :: 0 < k < |times| ==> times[k - 1] <= times[k] <= times[k - 1] + interval
  }

  lemma AgreeKeepsSearching(w: World, u: World, id: Id, first: int, last: int, interval: int, n: nat)
    requires Agree(w, u, id)
    ensures Searching(w, id, first, last, interval, n) <==> Searching(u, id, first, last, interval, n)
    ensures Waiting(w, id, n) <==> Waiting(u, id, n)
  {
  }

  lemma TickAt(w0: World, id: Id, ticks: seq<Tick>, k: nat)
    requires Sound(w0.s) && TicksFresh(w0.s, ticks) && k < |ticks|
    ensures
      var w := WorldAt(w0, id, ticks, k);
      && Sound(w.s) && TickFresh(w.s, w.s.attachments, 0, ticks[k].answers)
      && WorldAt(w0, id, ticks, k + 1) == TickWorld(w, id, ticks[k])
  {
    WorldIsAfterTicks(w0, id, ticks, k);
    TicksKeepSound(w0.s, ticks, k);
    NextTick(w0.s, ticks, k);
  }

  lemma FirstTickFails(w0: World, id: Id, ticks: seq<Tick>, interval: int)
    requires Sound(w0.s) && TicksFresh(w0.s, ticks) && |ticks| > 0 && OnlyObstacle(w0, id, ticks)
    requires Waiting(w0, id, 0) && w0.device.SharedInUse?
    ensures !BackAt(w0, id, ticks, 0)
    ensures Searching(WorldAt(w0, id, ticks, 1), id, Times(ticks, id)[0], Times(ticks, id)[0], interval, 1)
  {
    assert !BackBy(w0, id, ticks, 0);
    TickAt(w0, id, ticks, 0);
    var u := TickIsVisit(w0, id, ticks[0]);
    AgreeKeepsSearching(w0, u, id, 0, 0, 0, 0);
    FirstVisitFails(u, id, VisitOf(ticks[0], id), interval);
    AgreeKeepsSearching(Next(u, id, VisitOf(ticks[0], id)), TickWorld(w0, id, ticks[0]), id, Times(ticks, id)[0], Times(ticks, id)[0], interval, 1);
  }

  /** One more tick: it brings the attachment back in time, or the search goes on with `m` failures. */
  lemma TickGoesOn(w0: World, id: Id, ticks: seq<Tick>, first: int, interval: int, n: nat, k: nat) returns (m: nat)
    requires Sound(w0.s) && TicksFresh(w0.s, ticks) && 1 <= k < |ticks| && OnlyObstacle(w0, id, ticks) && !BackBy(w0, id, ticks, k)
    requires Steady(Times(ticks, id), interval)
    requires Searching(WorldAt(w0, id, ticks, k), id, first, Times(ticks, id)[k - 1], interval, n)
    ensures
      if BackAt(w0, id, ticks, k) then Times(ticks, id)[k] <= first + 900 + 6 * interval
      else Searching(WorldAt(w0, id, ticks, k + 1), id, first, Times(ticks, id)[k], interval, m)
  {
    var w, v := WorldAt(w0, id, ticks, k), VisitOf(ticks[k], id);
    var last, now := Times(ticks, id)[k - 1], Times(ticks, id)[k];
    TickAt(w0, id, ticks, k);
    var u := TickIsVisit(w, id, ticks[k]);
    AgreeKeepsSearching(w, u, id, first, last, interval, n);
    m := NextVisit(u, id, first, last, interval, n, v);
    AgreeKeepsSearching(Next(u, id, v), TickWorld(w, id, ticks[k]), id, first, now, interval, m);
  }

  /**
   * Bounded recovery. From no failures, with a stale export the only obstacle, tick `k` brings the attachment back:
   * at its seventh attempt at the latest, and within 900 seconds and six intervals of its first failure, whatever the
   * same ticks do to the other records of the store.
   */
  lemma RecoversInTime(w0: World, id: Id, ticks: seq<Tick>, interval: int) returns (k: nat, attempts: nat)
    requires Sound(w0.s) && TicksFresh(w0.s, ticks) && Waiting(w0, id, 0) && w0.device.SharedInUse?
    requires |ticks| > 0 && Steady(Times(ticks, id), interval) && OnlyObstacle(w0, id, ticks)
    requires Times(ticks, id)[|ticks| - 1] >= Times(ticks, id)[0] + 900 + 6 * interval
    ensures 1 <= k < |ticks| && BackAt(w0, id, ticks, k) && !BackBy(w0, id, ticks, k)
    ensures
      var w := WorldAt(w0, id, ticks, k);
      id in w.s.attachments.entries && attempts == w.s.attachments.entries[id].failures + 1
    ensures 2 <= attempts <= 7
    ensures Times(ticks, id)[k] <= Times(ticks, id)[0] + 900 + 6 * interval
  {
    FirstTickFails(w0, id, ticks, interval);
    SearchGoesOn(w0, id, ticks, interval);
    var n;
    k, n := SearchEnds(Times(ticks, id), interval, SearchingAt(w0, id, ticks, interval), BackFn(w0, id, ticks));
    attempts := n + 1;
    AttemptsCounted(w0, id, ticks, interval, k, n);
    forall j | 0 <= j < k
      ensures !BackAt(w0, id, ticks, j)
    {
      assert !BackFn(w0, id, ticks)(j);
    }
  }

  ghost function SearchingAt(w0: World, id: Id, ticks: seq<Tick>, interval: int): (nat, nat) -> bool
    requires |ticks| > 0
  {
    (k: nat, n: nat) =>
      1 <= k <= |ticks| && Searching(WorldAt(w0, id, ticks, k), id, Times(ticks, id)[0], Times(ticks, id)[k - 1], interval, n)
  }

  ghost function BackFn(w0: World, id: Id, ticks: seq<Tick>): nat -> bool {
    (k: nat) => k < |ticks| && BackAt(w0, id, ticks, k)
  }

  lemma AttemptsCounted(w0: World, id: Id, ticks: seq<Tick>, interval: int, k: nat, n: nat)
    requires |ticks| > 0 && SearchingAt(w0, id, ticks, interval)(k, n)
    ensures
      var w := WorldAt(w0, id, ticks, k);
      id in w.s.attachments.entries && n == w.s.attachments.entries[id].failures && 1 <= n <= 6
  {
  }

  /** Tick by tick a search ends in time or goes on, and it never outlasts its budget. */
  ghost predicate GoesOn(
      times: seq<int>, interval: int, searching: (nat, nat) -> bool, back: nat -> bool, k: nat, n: nat)
    requires |times| > 0
  {
    searching(k, n) && 1 <= k <= |times| && (forall j :: 0 <= j < k ==> !back(j)) ==>
      && times[k - 1] < times[0] + 900 + 6 * interval
      && (k < |times| ==> if back(k) then times[k] <= times[0] + 900 + 6 * interval else Searched(searching, k + 1))
  }

  ghost predicate Searched(searching: (nat, nat) -> bool, k: nat) {
    exists m :: searching(k, m)
  }

  lemma SearchGoesOn(w0: World, id: Id, ticks: seq<Tick>, interval: int)
    requires Sound(w0.s) && TicksFresh(w0.s, ticks) && |ticks| > 0 && OnlyObstacle(w0, id, ticks)
    requires Steady(Times(ticks, id), interval)
    ensures forall k, n :: GoesOn(Times(ticks, id), interval, SearchingAt(w0, id, ticks, interval), BackFn(w0, id, ticks), k, n)
  {
    var searching, back := SearchingAt(w0, id, ticks, interval), BackFn(w0, id, ticks);
    forall k: nat, n: nat
      ensures GoesOn(Times(ticks, id), interval, searching, back, k, n)
    {
      if searching(k, n) && 1 <= k <= |ticks| && forall j :: 0 <= j < k ==> !back(j) {
        OneStepOn(w0, id, ticks, interval, k, n);
      }
    }
  }

  lemma OneStepOn(w0: World, id: Id, ticks: seq<Tick>, interval: int, k: nat, n: nat)
    requires Sound(w0.s) && TicksFresh(w0.s, ticks) && |ticks| > 0 && OnlyObstacle(w0, id, ticks)
    requires Steady(Times(ticks, id), interval)
    requires SearchingAt(w0, id, ticks, interval)(k, n) && forall j :: 0 <= j < k ==> !BackFn(w0, id, ticks)(j)
    ensures GoesOn(Times(ticks, id), interval, SearchingAt(w0, id, ticks, interval), BackFn(w0, id, ticks), k, n)
  {
    var first := Times(ticks, id)[0];
    SearchIsShort(WorldAt(w0, id, ticks, k), id, first, Times(ticks, id)[k - 1], interval, n);
    if k < |ticks| {
      NotBackBy(w0, id, ticks, k);
      var m := TickGoesOn(w0, id, ticks, first, interval, n, k);
      if !BackAt(w0, id, ticks, k) { assert SearchingAt(w0, id, ticks, interval)(k + 1, m); }
    }
  }

  lemma NotBackBy(w0: World, id: Id, ticks: seq<Tick>, k: nat)
    requires k <= |ticks| && forall j :: 0 <= j < k ==> !BackFn(w0, id, ticks)(j)
    ensures !BackBy(w0, id, ticks, k)
  {
    forall j | 0 <= j < k
      ensures !BackAt(w0, id, ticks, j)
    {
      assert !BackFn(w0, id, ticks)(j);
    }
  }

  lemma SearchEnds(times: seq<int>, interval: int, searching: (nat, nat) -> bool, back: nat -> bool) returns (k: nat, n: nat)
    requires |times| > 1 && searching(1, 1) && !back(0)
    requires times[|times| - 1] >= times[0] + 900 + 6 * interval
    requires forall k, n :: GoesOn(times, interval, searching, back, k, n)
    ensures 1 <= k < |times| && back(k) && searching(k, n) && forall j :: 0 <= j < k ==> !back(j)
    ensures times[k] <= times[0] + 900 + 6 * interval
  {
    k, n := 1, 1;
    while k < |times| && !back(k)
      invariant 1 <= k <= |times| && searching(k, n) && forall j :: 0 <= j < k ==> !back(j)
      decreases |times| - k
    {
      assert GoesOn(times, interval, searching, back, k, n);
      assert Searched(searching, k + 1);
      n :| searching(k + 1, n);
      k := k + 1;
    }
    assert GoesOn(times, interval, searching, back, k, n);
  }
}
