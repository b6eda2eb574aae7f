/** The backoff schedule under every interleaving: stale snapshots written back are on schedule too. */
module Schedules {
  import opened Text
  import opened OrderedDict
  import opened Devices
  import opened UsbipClient
  import opened Backoff
  import opened ClientState
  import opened Registry
  import opened Interleaving

  ghost predicate EntriesOnSchedule(rest: seq<Entry>) {
    forall e :: e in rest ==> OnSchedule(e.att)
  }

  ghost predicate TaskOnSchedule(t: Task) {
    match t
    case Walking(rest, _) => EntriesOnSchedule(rest)
    case Querying(rest, _, _, _, _, _, back) => EntriesOnSchedule(rest) && (back.Some? ==> OnSchedule(back.value.att))
    case Relocating(rest, _, e, _) => EntriesOnSchedule(rest) && OnSchedule(e.att)
    case _ => true
  }

  /** Every record, stored or in a snapshot: `next_retry_at` is set exactly from the third failure on. */
  ghost predicate AllOnSchedule(y: System) {
    && y.st.attachments.Valid() && Scheduled(y.st)
    && forall i :: 0 <= i < |y.tasks| ==> TaskOnSchedule(y.tasks[i])
  }

  ghost predicate SegmentOnSchedule(g: Segment) {
    g.st.attachments.Valid() && Scheduled(g.st) && TaskOnSchedule(g.task)
  }

  ghost predicate Good(st: State) {
    st.attachments.Valid() && Scheduled(st)
  }

  lemma PutGood(st: State, id: Id, r: Record)
    requires Good(st) && OnSchedule(r)
    ensures Good(st.(attachments := st.attachments.Put(id, r)))
  {
  }

  lemma NodeUpdateGood(st: State, id: Id, node: Option<StableNode>)
    requires Good(st)
    ensures Good(NodeUpdated(st, id, node))
  {
  }

  lemma FailureGood(st: State, id: Id, now: int)
    requires Good(st)
    ensures Good(FailureNoted(st, id, now))
  {
    if id in st.attachments.entries { FailureKeepsSchedule(st.attachments.entries[id], now); }
  }

  lemma DirectBackGood(st: State, id: Id, att: Record, busid: string, got: Outcome, a: Answers)
    requires Good(st) && OnSchedule(att) && got.Attached?
    ensures Good(DirectBack(st, id, att, busid, got, a))
  {
    DirectBackStored(st, id, att, busid, got, a);
    var r := BackRecord(att, busid, got, a.now);
    PutGood(st, id, r);
    NodeUpdateGood(st.(attachments := st.attachments.Put(id, r), trace := st.trace + [Reattached(id, a.now)]), id, a.node);
  }

  lemma GroupFailedGood(st: State, rest: seq<Entry>, live: map<Port, string>, back: Option<Entry>, now: int)
    requires Good(st) && EntriesOnSchedule(rest) && (back.Some? ==> OnSchedule(back.value.att))
    ensures SegmentOnSchedule(GroupFailed(st, rest, live, back, now))
  {
    if back.Some? {
      PutGood(st, back.value.id, back.value.att);
      FailureGood(st.(attachments := st.attachments.Put(back.value.id, back.value.att)), back.value.id, now);
    }
  }

  lemma GroupBeginGood(st: State, g: Id, rest: seq<Entry>, live: map<Port, string>, back: Option<Entry>, now: int)
    requires Good(st) && EntriesOnSchedule(rest) && (back.Some? ==> OnSchedule(back.value.att))
    ensures SegmentOnSchedule(GroupBegin(st, g, rest, live, back, now))
  {
    GroupFailedGood(st, rest, live, back, now);
  }

  lemma GroupResumeGood(st: State, t: Task, a: Answers)
    requires Good(st) && t.Querying? && TaskOnSchedule(t)
    ensures SegmentOnSchedule(GroupResume(st, t, a))
  {
    GroupFailedGood(st, t.rest, t.live, t.back, a.now);
    if t.k < |t.group.candidates| && Qualifies(t.servers, t.group.candidates[t.k], t.k, a) {
      var c := t.group.candidates[t.k];
      var r := GroupRecord(t.g, t.group, c, CandidateSerial(a.fetch(t.k), c.busid).value, a.attach(t.k), a.now);
      PutGood(st, a.newId, r);
      NodeUpdateGood(
        st.(attachments := st.attachments.Put(a.newId, r), used := st.used + {a.newId}, trace := st.trace + [GroupAttached(a.newId, t.g, t.k)]),
        a.newId, a.node);
    }
  }

  lemma RestoreBeginGood(st: State, e: Entry, rest: seq<Entry>, live: map<Port, string>, a: Answers)
    requires Good(st) && OnSchedule(e.att) && EntriesOnSchedule(rest)
    ensures SegmentOnSchedule(RestoreBegin(st, e, rest, live, a))
  {
    if e.att.autoFailover {
      if e.att.group.Some? {
        GroupBeginGood(st.(attachments := st.attachments.Pop(e.id)), e.att.group.value, rest, live, Some(e), a.now);
      } else if e.att.server !in st.servers {
        FailureGood(st, e.id, a.now);
      } else if a.attach(0).Attached? {
        DirectBackGood(st, e.id, e.att, e.att.busid, a.attach(0), a);
      }
    }
  }

  lemma DirectRetryGood(st: State, id: Id, att: Record, error: string, a: Answers)
    requires Good(st) && OnSchedule(att)
    ensures Good(DirectRetry(st, id, att, error, a).0)
  {
    match FindRelocated(a.fetch(0), att.serial, att.busid)
    case None => DirectFailedGood(st, id, att, att.busid, error, a);
    case Some(elsewhere) =>
      match a.attach(1)
      case CommandError(error2) => DirectFailedGood(st, id, att, elsewhere, error2, a);
      case Attached(_, _) => DirectBackGood(st, id, att, elsewhere, a.attach(1), a);
  }

  lemma DirectFailedGood(st: State, id: Id, att: Record, busid: string, error: string, a: Answers)
    requires Good(st)
    ensures Good(DirectFailed(st, id, att, busid, error, a))
  {
    FailureGood(st, id, a.now);
  }

  lemma DirectFinishGood(st: State, server: Id, d: Device, o: Options, a: Answers)
    requires Good(st)
    ensures SegmentOnSchedule(DirectFinish(st, server, d, o, a))
  {
    if a.attach(0).Attached? {
      var r := DirectRecord(server, d, o, a.attach(0), a.now);
      PutGood(st, a.newId, r);
      NodeUpdateGood(st.(attachments := st.attachments.Put(a.newId, r), used := st.used + {a.newId}), a.newId, a.node);
    }
  }

  lemma ResumeGood(st: State, t: Task, a: Answers)
    requires Good(st) && TaskOnSchedule(t)
    ensures SegmentOnSchedule(Resume(st, t, a))
  {
    match t
    case Walking(rest, live) =>
      if rest != [] { RestoreBeginGood(st, rest[0], rest[1..], live, a); }
    case Querying(_, _, _, _, _, _, _) => GroupResumeGood(st, t, a);
    case Relocating(_, _, e, error) => DirectRetryGood(st, e.id, e.att, error, a);
    case Fetching(server, busid, o) =>
      if a.fetch(0).Listed? && FirstDevice(a.fetch(0).scan, AtBusid(busid)).Some? {
        DirectFinishGood(st, server, FirstDevice(a.fetch(0).scan, AtBusid(busid)).value, o, a);
      }
    case Sharing(server, d, o) => DirectFinishGood(st, server, d, o, a);
  }

  lemma {:induction false} SnapshotOnSchedule(st: State, order: seq<Id>)
    requires Scheduled(st)
    ensures EntriesOnSchedule(Snapshot(st.attachments, order))
  {
    if order != [] { SnapshotOnSchedule(st, order[..|order| - 1]); }
  }

  lemma PushGood(st: State, server: Id, busid: string, serial: string, live: map<Port, string>, a: Answers)
    requires Good(st)
    ensures SegmentOnSchedule(PushBegin(st, server, busid, serial, live, a))
  {
    match PushTarget(st, server, busid, serial, live)
    case None =>
    case Some((e, true)) => RestoreBeginGood(st, e, [], map[], a);
    case Some((e, false)) =>
      var moved := Entry(e.id, e.att.(busid := busid));
      PutGood(st, e.id, moved.att);
      RestoreBeginGood(st.(attachments := st.attachments.Put(e.id, moved.att)), moved, [], map[], a);
  }

  lemma {:induction false} RefreshGood(st: State, order: seq<Id>, live: map<Port, string>, nodes: Id -> Option<StableNode>)
    requires Good(st)
    ensures Good(NodesRefreshed(st, order, live, nodes))
  {
    if order != [] {
      var init, id := order[..|order| - 1], order[|order| - 1];
      RefreshGood(st, init, live, nodes);
      NodeUpdateGood(NodesRefreshed(st, init, live, nodes), id, nodes(id));
    }
  }

  lemma ServeGood(st: State, e: Event)
    requires Good(st)
    requires !e.EDirectAttach? && !e.EGroupAttach? && !e.ETick? && !e.EPush? && !e.EStart?
    ensures Good(After(st, e))
  {
  }

  lemma SegmentGood(y: System, x: Step)
    requires AllOnSchedule(y) && Enabled(y, x) && SegmentOf(y, x).Some?
    ensures SegmentOnSchedule(SegmentOf(y, x).value)
  {
    match x
    case StartTick => SnapshotOnSchedule(y.st, y.st.attachments.order);
    case StartPush(server, busid, serial, _, a) => PushGood(y.st, server, busid, serial, LiveOf(y.kernel), a);
    case StartGroup(g, a) => GroupBeginGood(y.st, g, [], map[], None, a.now);
    case StartDirect(_, _, _) =>
    case ResumeTask(i, a) => ResumeGood(y.st, y.tasks[i], a);
  }

  lemma StepKeepsSchedules(y: System, x: Step)
    requires AllOnSchedule(y) && Enabled(y, x)
    ensures AllOnSchedule(Exec(y, x))
  {
    if SegmentOf(y, x).Some? {
      SegmentGood(y, x);
    } else {
      match x
      case Serve(e, _) => ServeGood(y.st, e);
      case Restart(_, nodes) =>
        RefreshGood(y.st.(startup := {}, trace := y.st.trace + [ProcessStarted]), y.st.attachments.order,
                    LiveOf(KernelBefore(y, x)), nodes);
      case Drop(_) =>
      case Appear(_, _) =>
    }
  }

  ghost function OnScheduleAt(): System -> bool {
    (y: System) => AllOnSchedule(y)
  }

  /** Across all steps of all coroutines, whatever the kernel does, every record stays on its schedule. */
  lemma EveryInterleavingKeepsSchedules(y: System, xs: seq<Step>)
    requires AllOnSchedule(y) && RunOf(y, xs, AnyStep())
    ensures AllOnSchedule(AfterSteps(y, xs))
  {
    StepsKeepSchedules();
    RunKeeps(y, xs, AnyStep(), OnScheduleAt());
  }

  lemma StepsKeepSchedules()
    ensures forall u, x :: OnScheduleAt()(u) && u.st.attachments.Valid() && Enabled(u, x) ==> OnScheduleAt()(Exec(u, x))
  {
    forall u, x | OnScheduleAt()(u) && u.st.attachments.Valid() && Enabled(u, x)
      ensures OnScheduleAt()(Exec(u, x))
    {
      StepKeepsSchedules(u, x);
    }
  }
}
