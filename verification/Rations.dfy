/** How often a client may force a rebind, under every interleaving: stale snapshots never reset a count. */
module Rations {
  import opened Text
  import opened OrderedDict
  import opened Devices
  import opened UsbipClient
  import opened Backoff
  import opened ClientState
  import opened Registry
  import opened Interleaving
  import opened Interference
  import opened Snapshots
  import opened Rebinds

  /** Which ids are of group attachments. An id never changes from the one kind to the other. */
  type Kinds = map<Id, bool>

  ghost predicate KindIs(kinds: Kinds, id: Id, r: Record) {
    id in kinds && kinds[id] == r.group.Some?
  }

  /** The counts are bounded, and none is kept of a group's attachment: only direct ones ask for rebinds. */
  ghost predicate StoreFits(st: State, kinds: Kinds) {
    && Bounded(st) && kinds.Keys <= st.used
    && (forall id :: id in st.attachments.entries ==> KindIs(kinds, id, st.attachments.entries[id]))
    && (forall id :: id in kinds && kinds[id] ==> SixSince(st.trace, id) == 0)
  }

  ghost predicate TaskFits(t: Task, kinds: Kinds) {
    && (forall e :: e in EntriesOf(t) ==> KindIs(kinds, e.id, e.att))
    && (t.Relocating? ==> t.entry.att.group.None?)
    && (t.Querying? && t.back.Some? ==> t.back.value.att.group.Some?)
  }

  ghost predicate SegmentFits(g: Segment, kinds: Kinds) {
    StoreFits(g.st, kinds) && TaskFits(g.task, kinds)
  }

  /** `more` knows at most one id more, one that was never used. */
  ghost predicate Extends(kinds: Kinds, more: Kinds, newId: Option<Id>) {
    more == kinds || (newId.Some? && newId.value !in kinds && (more == kinds[newId.value := true] || more == kinds[newId.value := false]))
  }

  // ------------------------------------------------------------ single writes

  lemma NotedFits(st: State, kinds: Kinds, e: Effect)
    requires StoreFits(st, kinds) && (e.AttemptFailed? || e.GroupAttached?)
    ensures StoreFits(st.(trace := st.trace + [e]), kinds)
  {
    NeutralKeeps(st, e);
    forall id { Appended(st.trace, e, id); }
  }

  lemma NodeUpdateFits(st: State, kinds: Kinds, id: Id, node: Option<StableNode>)
    requires StoreFits(st, kinds)
    ensures StoreFits(NodeUpdated(st, id, node), kinds)
  {
    NodeUpdateKeepsBound(st, id, node);
    NodeUpdateFrame(st, id, node);
    var t := NodeUpdated(st, id, node);
    forall j | j in t.attachments.entries
      ensures KindIs(kinds, j, t.attachments.entries[j])
    {
      assert KindIs(kinds, j, st.attachments.entries[j]);
    }
  }

  lemma FailureFits(st: State, kinds: Kinds, id: Id, now: int)
    requires StoreFits(st, kinds)
    ensures StoreFits(FailureNoted(st, id, now), kinds)
  {
    if id in st.attachments.entries {
      FailureKeepsBound(st, id, now);
      NotedFits(st, kinds, AttemptFailed(id, now));
    }
  }

  /** A record of a group attachment may be put back with any count: none was asked for it. */
  lemma PutBackFits(st: State, kinds: Kinds, e: Entry)
    requires StoreFits(st, kinds) && KindIs(kinds, e.id, e.att) && e.att.group.Some?
    ensures StoreFits(st.(attachments := st.attachments.Put(e.id, e.att)), kinds)
  {
    var t := st.(attachments := st.attachments.Put(e.id, e.att));
    forall id
      ensures Rationed(t, id)
    {
      assert Rationed(st, id);
    }
  }

  lemma PopFits(st: State, kinds: Kinds, id: Id)
    requires StoreFits(st, kinds)
    ensures StoreFits(st.(attachments := st.attachments.Pop(id)), kinds)
  {
    PoppingKeepsBound(st, id);
  }

  lemma DirectFailedFits(st: State, kinds: Kinds, e: Entry, busid: string, error: string, a: Answers)
    requires StoreFits(st, kinds) && KindIs(kinds, e.id, e.att) && e.att.group.None?
    ensures StoreFits(DirectFailed(st, e.id, e.att, busid, error, a), kinds)
  {
    var noted := FailureNoted(st, e.id, a.now);
    var t := DirectFailed(st, e.id, e.att, busid, error, a);
    DirectFailedKeepsBound(st, e.id, e.att, busid, error, a);
    FailureFits(st, kinds, e.id, a.now);
    if t.trace != noted.trace {
      var ask := t.trace[|t.trace| - 1];
      assert t.trace == noted.trace + [ask];
      AskedFits(noted, kinds, t, ask);
    }
  }

  lemma AskedFits(st: State, kinds: Kinds, t: State, ask: Effect)
    requires StoreFits(st, kinds) && Bounded(t) && t == st.(startup := t.startup, trace := st.trace + [ask])
    requires ask.AskedRebind? && ask.id in kinds && !kinds[ask.id]
    ensures StoreFits(t, kinds)
  {
    forall id { Appended(st.trace, ask, id); }
  }

  lemma DirectBackFits(st: State, kinds: Kinds, e: Entry, busid: string, got: Outcome, a: Answers)
    requires StoreFits(st, kinds) && KindIs(kinds, e.id, e.att) && got.Attached?
    ensures StoreFits(DirectBack(st, e.id, e.att, busid, got, a), kinds)
  {
    DirectBackKeepsBound(st, e.id, e.att, busid, got, a);
    DirectBackStored(st, e.id, e.att, busid, got, a);
    var back := Reattached(e.id, a.now);
    var t := st.(attachments := st.attachments.Put(e.id, BackRecord(e.att, busid, got, a.now)), trace := st.trace + [back]);
    NodeUpdateFrame(t, e.id, a.node);
    forall id { Appended(st.trace, back, id); }
    var z := DirectBack(st, e.id, e.att, busid, got, a);
    forall j | j in z.attachments.entries
      ensures KindIs(kinds, j, z.attachments.entries[j])
    {
      assert j == e.id || z.attachments.entries[j] == st.attachments.entries[j];
    }
  }

  /** A new record makes its id known, as a group's or a direct one's. */
  lemma NewRecordFits(st: State, kinds: Kinds, newId: Id, u: State, r: Record)
    requires StoreFits(st, kinds) && newId !in st.used && Bounded(u) && u.trace == st.trace
    requires u.attachments.entries == st.attachments.entries[newId := r] && u.used == st.used + {newId}
    ensures StoreFits(u, kinds[newId := r.group.Some?])
  {
    assert Rationed(st, newId);
  }

  lemma GroupPutFits(st: State, kinds: Kinds, g: Id, group: Group, c: Candidate, k: nat, serial: string, a: Answers)
    requires StoreFits(st, kinds) && a.newId !in st.used && a.attach(k).Attached?
    ensures StoreFits(GroupPut(st, g, group, c, k, serial, a), kinds[a.newId := true])
  {
    var r, e := GroupRecord(g, group, c, serial, a.attach(k), a.now), GroupAttached(a.newId, g, k);
    var u := st.(attachments := st.attachments.Put(a.newId, r), used := st.used + {a.newId}, trace := st.trace + [e]);
    var noted := st.(trace := st.trace + [e]);
    NotedFits(st, kinds, e);
    QuietKeeps(noted, u);
    NewRecordFits(noted, kinds, a.newId, u, r);
    NodeUpdateFits(u, kinds[a.newId := true], a.newId, a.node);
  }

  lemma DirectStoredFits(st: State, kinds: Kinds, server: Id, d: Device, o: Options, got: Outcome, a: Answers)
    requires StoreFits(st, kinds) && a.newId !in st.used && got.Attached?
    ensures StoreFits(DirectStored(st, server, d, o, got, a), kinds[a.newId := false])
  {
    var r := DirectRecord(server, d, o, got, a.now);
    var u := st.(attachments := st.attachments.Put(a.newId, r), used := st.used + {a.newId});
    QuietKeeps(st, u);
    NewRecordFits(st, kinds, a.newId, u, r);
    NodeUpdateFits(u, kinds[a.newId := false], a.newId, a.node);
  }

  // ------------------------------------------------------------------ segments

  ghost predicate RestFits(rest: seq<Entry>, kinds: Kinds) {
    forall e :: e in rest ==> KindIs(kinds, e.id, e.att)
  }

  lemma GroupFailedFits(st: State, kinds: Kinds, rest: seq<Entry>, live: map<Port, string>, back: Option<Entry>, now: int)
    requires StoreFits(st, kinds) && RestFits(rest, kinds)
    requires back.Some? ==> KindIs(kinds, back.value.id, back.value.att) && back.value.att.group.Some?
    ensures SegmentFits(GroupFailed(st, rest, live, back, now), kinds)
  {
    if back.Some? {
      PutBackFits(st, kinds, back.value);
      FailureFits(st.(attachments := st.attachments.Put(back.value.id, back.value.att)), kinds, back.value.id, now);
    }
  }

  lemma GroupBeginFits(st: State, kinds: Kinds, g: Id, rest: seq<Entry>, live: map<Port, string>, back: Option<Entry>, now: int)
    requires StoreFits(st, kinds) && RestFits(rest, kinds)
    requires back.Some? ==> KindIs(kinds, back.value.id, back.value.att) && back.value.att.group.Some?
    ensures SegmentFits(GroupBegin(st, g, rest, live, back, now), kinds)
  {
    GroupFailedFits(st, kinds, rest, live, back, now);
  }

  lemma RestoreBeginFits(st: State, kinds: Kinds, e: Entry, rest: seq<Entry>, live: map<Port, string>, a: Answers)
    requires StoreFits(st, kinds) && RestFits(rest, kinds) && KindIs(kinds, e.id, e.att)
    ensures SegmentFits(RestoreBegin(st, e, rest, live, a), kinds)
  {
    if !e.att.autoFailover {
      PopFits(st, kinds, e.id);
    } else if e.att.group.Some? {
      PopFits(st, kinds, e.id);
      GroupBeginFits(st.(attachments := st.attachments.Pop(e.id)), kinds, e.att.group.value, rest, live, Some(e), a.now);
    } else if e.att.server !in st.servers {
      FailureFits(st, kinds, e.id, a.now);
    } else if a.attach(0).Attached? {
      DirectBackFits(st, kinds, e, e.att.busid, a.attach(0), a);
    }
  }

  lemma GroupResumeFits(st: State, kinds: Kinds, t: Task, a: Answers) returns (more: Kinds)
    requires t.Querying? && StoreFits(st, kinds) && TaskFits(t, kinds) && a.newId !in st.used
    ensures Extends(kinds, more, Some(a.newId)) && SegmentFits(GroupResume(st, t, a), more)
  {
    more := kinds;
    assert RestFits(t.rest, kinds) by { assert forall e :: e in t.rest ==> e in EntriesOf(t); }
    if t.k >= |t.group.candidates| {
      if t.back.Some? { assert t.back.value in EntriesOf(t); }
      GroupFailedFits(st, kinds, t.rest, t.live, t.back, a.now);
    } else {
      var c := t.group.candidates[t.k];
      if Qualifies(t.servers, c, t.k, a) {
        GroupPutFits(st, kinds, t.g, t.group, c, t.k, CandidateSerial(a.fetch(t.k), c.busid).value, a);
        more := kinds[a.newId := true];
      } else {
        assert EntriesOf(t.(k := t.k + 1)) == EntriesOf(t);
      }
    }
  }

  lemma RelocateResumeFits(st: State, kinds: Kinds, t: Task, a: Answers)
    requires t.Relocating? && StoreFits(st, kinds) && TaskFits(t, kinds)
    ensures SegmentFits(RelocateResume(st, t, a), kinds)
  {
    var e := t.entry;
    assert e in EntriesOf(t) && forall f :: f in t.rest ==> f in EntriesOf(t);
    match FindRelocated(a.fetch(0), e.att.serial, e.att.busid)
    case None => DirectFailedFits(st, kinds, e, e.att.busid, t.error, a);
    case Some(elsewhere) =>
      match a.attach(1)
      case CommandError(error2) => DirectFailedFits(st, kinds, e, elsewhere, error2, a);
      case Attached(_, _) => DirectBackFits(st, kinds, e, elsewhere, a.attach(1), a);
  }

  lemma DirectFinishFits(st: State, kinds: Kinds, server: Id, d: Device, o: Options, a: Answers) returns (more: Kinds)
    requires StoreFits(st, kinds) && a.newId !in st.used
    ensures Extends(kinds, more, Some(a.newId)) && SegmentFits(DirectFinish(st, server, d, o, a), more)
  {
    more := kinds;
    if a.attach(0).Attached? {
      DirectStoredFits(st, kinds, server, d, o, a.attach(0), a);
      more := kinds[a.newId := false];
    }
  }

  lemma FetchResumeFits(st: State, kinds: Kinds, t: Task, a: Answers) returns (more: Kinds)
    requires t.Fetching? && StoreFits(st, kinds) && a.newId !in st.used
    ensures Extends(kinds, more, Some(a.newId)) && SegmentFits(FetchResume(st, t, a), more)
  {
    more := kinds;
    if a.fetch(0).Listed? && FirstDevice(a.fetch(0).scan, AtBusid(t.busid)).Some? {
      var d := FirstDevice(a.fetch(0).scan, AtBusid(t.busid)).value;
      if d.status != SharedInUse && d.status != Unshared { more := DirectFinishFits(st, kinds, t.server, d, t.options, a); }
    }
  }

  lemma ResumeFits(st: State, kinds: Kinds, t: Task, a: Answers) returns (more: Kinds)
    requires StoreFits(st, kinds) && TaskFits(t, kinds) && (Generated(t, a).Some? ==> a.newId !in st.used)
    ensures Extends(kinds, more, Generated(t, a)) && SegmentFits(Resume(st, t, a), more)
  {
    more := kinds;
    match t
    case Walking(rest, live) =>
      if rest != [] { RestoreBeginFits(st, kinds, rest[0], rest[1..], live, a); }
    case Querying(_, _, _, _, _, _, _) => more := GroupResumeFits(st, kinds, t, a);
    case Relocating(_, _, _, _) => RelocateResumeFits(st, kinds, t, a);
    case Fetching(_, _, _) => more := FetchResumeFits(st, kinds, t, a);
    case Sharing(server, d, o) =>
      if a.shareOk { more := DirectFinishFits(st, kinds, server, d, o, a); }
  }

  lemma PushBeginFits(st: State, kinds: Kinds, server: Id, busid: string, serial: string, live: map<Port, string>, a: Answers)
    requires st.attachments.Valid() && StoreFits(st, kinds)
    ensures SegmentFits(PushBegin(st, server, busid, serial, live, a), kinds)
  {
    match PushTarget(st, server, busid, serial, live)
    case None =>
    case Some((e, true)) => RestoreBeginFits(st, kinds, e, [], map[], a);
    case Some((e, false)) =>
      MovedFits(st, kinds, e, Entry(e.id, e.att.(busid := busid)), a);
  }

  lemma MovedFits(st: State, kinds: Kinds, e: Entry, moved: Entry, a: Answers)
    requires StoreFits(st, kinds) && e.id in st.attachments.entries && st.attachments.entries[e.id] == e.att
    requires moved.id == e.id && moved.att == e.att.(busid := moved.att.busid)
    ensures SegmentFits(RestoreBegin(st.(attachments := st.attachments.Put(e.id, moved.att)), moved, [], map[], a), kinds)
  {
    var u := st.(attachments := st.attachments.Put(e.id, moved.att));
    QuietKeeps(st, u);
    RestoreBeginFits(u, kinds, moved, [], map[], a);
  }

  lemma {:induction false} SnapshotFits(st: State, kinds: Kinds, order: seq<Id>)
    requires StoreFits(st, kinds)
    ensures RestFits(Snapshot(st.attachments, order), kinds)
  {
    if order != [] { SnapshotFits(st, kinds, order[..|order| - 1]); }
  }

  lemma SegmentKeepsFit(y: System, x: Step, kinds: Kinds) returns (more: Kinds)
    requires Enabled(y, x) && y.st.attachments.Valid() && SegmentOf(y, x).Some? && IdIsFresh(y, x)
    requires StoreFits(y.st, kinds) && (x.ResumeTask? ==> TaskFits(y.tasks[x.i], kinds))
    ensures Extends(kinds, more, NewIdOf(y, x)) && SegmentFits(SegmentOf(y, x).value, more)
  {
    more := kinds;
    match x
    case StartTick => SnapshotFits(y.st, kinds, y.st.attachments.order);
    case StartPush(server, busid, serial, _, a) => PushBeginFits(y.st, kinds, server, busid, serial, LiveOf(y.kernel), a);
    case StartGroup(g, a) => GroupBeginFits(y.st, kinds, g, [], map[], None, a.now);
    case StartDirect(_, _, _) =>
    case ResumeTask(i, a) => more := ResumeFits(y.st, kinds, y.tasks[i], a);
  }

  lemma OtherStepFits(y: System, x: Step, kinds: Kinds)
    requires Enabled(y, x) && y.st.attachments.Valid() && SegmentOf(y, x).None? && StoreFits(y.st, kinds)
    ensures StoreFits(Exec(y, x).st, kinds)
  {
    OtherStepsAddNothing(y, x);
    match x
    case Serve(e, _) => ServeFits(y.st, e, kinds);
    case Restart(_, nodes) => RestartFits(y.st, LiveOf(KernelBefore(y, x)), nodes, kinds);
    case Drop(_) =>
    case Appear(_, _) =>
  }

  lemma ServeFits(st: State, e: Event, kinds: Kinds)
    requires st.attachments.Valid() && StoreFits(st, kinds) && AddsNothing(st, After(st, e))
    requires !e.EDirectAttach? && !e.EGroupAttach? && !e.ETick? && !e.EPush? && !e.EStart?
    ensures StoreFits(After(st, e), kinds)
  {
    if e.EDetach? || e.EGroupDetach? { DetachKeepsBound(st, e); } else { EditKeepsBound(st, e); }
    ServeNotesNothing(st, e);
  }

  lemma ServeNotesNothing(st: State, e: Event)
    requires st.attachments.Valid()
    requires !e.EDirectAttach? && !e.EGroupAttach? && !e.ETick? && !e.EPush? && !e.EStart?
    ensures After(st, e).trace == st.trace
  {
  }

  lemma RestartFits(st: State, live: map<Port, string>, nodes: Id -> Option<StableNode>, kinds: Kinds)
    requires StoreFits(st, kinds) && AddsNothing(st, Started(st, live, nodes))
    ensures StoreFits(Started(st, live, nodes), kinds)
  {
    StartKeepsBound(st, live, nodes);
    var begun := st.(startup := {}, trace := st.trace + [ProcessStarted]);
    RefreshNotesNothing(begun, st.attachments.order, live, nodes);
    forall id { Appended(st.trace, ProcessStarted, id); }
  }

  lemma {:induction false} RefreshNotesNothing(st: State, order: seq<Id>, live: map<Port, string>, nodes: Id -> Option<StableNode>)
    ensures NodesRefreshed(st, order, live, nodes).trace == st.trace
  {
    if order != [] { RefreshNotesNothing(st, order[..|order| - 1], live, nodes); }
  }

  // ---------------------------------------------------------------------- runs

  ghost predicate FitsBy(y: System, kinds: Kinds) {
    StoreFits(y.st, kinds) && forall i :: 0 <= i < |y.tasks| ==> TaskFits(y.tasks[i], kinds)
  }

  ghost predicate Fits(y: System) {
    exists kinds :: FitsBy(y, kinds)
  }

  ghost function FitsAt(): System -> bool {
    (y: System) => Fits(y)
  }

  lemma TaskStillFits(t: Task, kinds: Kinds, more: Kinds, newId: Option<Id>)
    requires TaskFits(t, kinds) && Extends(kinds, more, newId)
    ensures TaskFits(t, more)
  {
  }

  lemma StepKeepsFit(y: System, x: Step, kinds: Kinds)
    requires Enabled(y, x) && y.st.attachments.Valid() && FitsBy(y, kinds) && IdIsFresh(y, x)
    ensures Fits(Exec(y, x))
  {
    if SegmentOf(y, x).Some? {
      var more := SegmentKeepsFit(y, x, kinds);
      TaskReplaced(y, x);
      forall i | 0 <= i < |y.tasks|
        ensures TaskFits(y.tasks[i], more)
      {
        TaskStillFits(y.tasks[i], kinds, more, NewIdOf(y, x));
      }
      assert FitsBy(Exec(y, x), more);
    } else {
      OtherStepFits(y, x, kinds);
      assert FitsBy(Exec(y, x), kinds);
    }
  }

  /**
   * The rations hold under every interleaving, of handlers, drops and restarts: one six-failure rebind since the last
   * successful reconnect, one startup rebind per process, and so at most two since that reconnect, and one more for
   * each start of the process in between.
   */
  lemma EveryInterleavingRationsRebinds(y: System, xs: seq<Step>, id: Id)
    requires Fits(y) && RunOf(y, xs, FreshIds())
    ensures
      var trace := AfterSteps(y, xs).st.trace;
      && SixSince(trace, id) <= 1 && StartupSince(trace, id) <= 1
      && AsksSinceBack(trace, id) <= 2 + StartsSinceBack(trace, id)
  {
    forall u, x | FitsAt()(u) && u.st.attachments.Valid() && Enabled(u, x) && FreshIds()(u, x)
      ensures FitsAt()(Exec(u, x))
    {
      var kinds :| FitsBy(u, kinds);
      StepKeepsFit(u, x, kinds);
    }
    RunKeeps(y, xs, FreshIds(), FitsAt());
    var kinds :| FitsBy(AfterSteps(y, xs), kinds);
    assert Rationed(AfterSteps(y, xs).st, id);
    AsksAreOfTwoKinds(AfterSteps(y, xs).st.trace, id);
  }

  /** A new installation starts such a run. */
  lemma FirstSystemFits(kernel: Kernel, st: State)
    requires st.attachments.entries == map[] && st.trace == []
    ensures Fits(System(st, kernel, []))
  {
    assert FitsBy(System(st, kernel, []), map[]);
  }
}
