/**
 * The client's coroutines, interleaved at their await points: watchdog ticks, server pushes, group and direct
 * attaches, each with the snapshot it read before it was suspended. Between a successful attach and the store
 * update there is no await, so both belong to one step.
 */
module Interleaving {
  import opened Text
  import opened OrderedDict
  import opened Devices
  import opened UsbipClient
  import opened Backoff
  import opened ClientState

  /** A session on a vhci port: the local busid the kernel gave it, and the attachment it was made for, if any. */
  datatype Session = Session(local: string, owner: Option<Id>)

  type Kernel = map<Port, Session>

  function LiveOf(kernel: Kernel): map<Port, string> {
    map p | p in kernel :: kernel[p].local
  }

  /** A snapshot entry: an attachment id and the record read under it. */
  datatype Entry = Entry(id: Id, att: Record)

  /**
   * A suspended coroutine. `rest` and `live` are a tick's snapshot, empty for the other handlers. `Querying`
   * awaits the device list for candidate `k`; `back` is the record popped before, to be put back on failure.
   * Requesting a rebind is the last thing a restore does, so that await coincides with `Walking`.
   */
  datatype Task =
    | Walking(rest: seq<Entry>, live: map<Port, string>)
    | Querying(rest: seq<Entry>, live: map<Port, string>, g: Id, group: Group, servers: map<Id, Server>, k: nat, back: Option<Entry>)
    | Relocating(rest: seq<Entry>, live: map<Port, string>, entry: Entry, error: string)
    | Fetching(server: Id, busid: string, options: Options)
    | Sharing(server: Id, device: Device, options: Options)

  /**
   * What one step of a coroutine leaves: the store, its next suspension, the session it was granted, and the record
   * it wrote into the store (a reconnected one as it was read before).
   */
  datatype Segment = Segment(st: State, task: Task, grant: Option<Claim>, put: Option<Entry>)

  /** That the session `local` on `port` is attachment `id`'s. */
  datatype Claim = Claim(id: Id, port: Port, local: string)

  function Granted(kernel: Kernel, grant: Option<Claim>): Kernel {
    match grant case None => kernel case Some(g) => kernel[g.port := Session(g.local, Some(g.id))]
  }

  function Done(): Task {
    Walking([], map[])
  }

  // --------------------------------------------------------------- group attach

  /** `attach_group` raised: a restore puts the popped record back and counts the failure. */
  function GroupFailed(st: State, rest: seq<Entry>, live: map<Port, string>, back: Option<Entry>, now: int): Segment {
    match back
    case None => Segment(st, Walking(rest, live), None, None)
    case Some(e) =>
      Segment(FailureNoted(st.(attachments := st.attachments.Put(e.id, e.att)), e.id, now), Walking(rest, live), None, Some(e))
  }

  /** Up to the first await: the guards, on the store as it is now. */
  function GroupBegin(st: State, g: Id, rest: seq<Entry>, live: map<Port, string>, back: Option<Entry>, now: int): Segment {
    if g !in st.groups || ActiveFor(st.attachments, g).Some? then GroupFailed(st, rest, live, back, now)
    else Segment(st, Querying(rest, live, g, st.groups[g], st.servers, 0, back), None, None)
  }

  /** The device list of candidate `k` has arrived. Group and servers are those read at the beginning. */
  function GroupResume(st: State, t: Task, a: Answers): Segment
    requires t.Querying?
  {
    if t.k >= |t.group.candidates| then GroupFailed(st, t.rest, t.live, t.back, a.now)
    else
      var c := t.group.candidates[t.k];
      if !Qualifies(t.servers, c, t.k, a) then Segment(st, t.(k := t.k + 1), None, None)
      else
        var got, serial := a.attach(t.k), CandidateSerial(a.fetch(t.k), c.busid).value;
        Segment(GroupPut(st, t.g, t.group, c, t.k, serial, a), Walking(t.rest, t.live),
                Some(Claim(a.newId, got.port, got.local)), Some(Entry(a.newId, GroupRecord(t.g, t.group, c, serial, got, a.now))))
  }

  // ------------------------------------------------------------------- restores

  /** `_restore_dropped_attachment` up to its first await. */
  function RestoreBegin(st: State, e: Entry, rest: seq<Entry>, live: map<Port, string>, a: Answers): Segment {
    if !e.att.autoFailover then
      Segment(st.(attachments := st.attachments.Pop(e.id)), Walking(rest, live), None, None)
    else if e.att.group.Some? then
      GroupBegin(st.(attachments := st.attachments.Pop(e.id)), e.att.group.value, rest, live, Some(e), a.now)
    else if e.att.server !in st.servers then
      Segment(FailureNoted(st, e.id, a.now), Walking(rest, live), None, None)
    else match a.attach(0)
      case CommandError(error) => Segment(st, Relocating(rest, live, e, error), None, None)
      case Attached(port, local) =>
        Segment(DirectBack(st, e.id, e.att, e.att.busid, a.attach(0), a), Walking(rest, live), Some(Claim(e.id, port, local)), Some(e))
  }

  /** The device list for the relocation search has arrived. */
  function RelocateResume(st: State, t: Task, a: Answers): Segment
    requires t.Relocating?
  {
    var (after, restored) := DirectRetry(st, t.entry.id, t.entry.att, t.error, a);
    var got := a.attach(1);
    Segment(after, Walking(t.rest, t.live),
            if restored.Back? && got.Attached? then Some(Claim(t.entry.id, got.port, got.local)) else None,
            if restored.Back? then Some(t.entry) else None)
  }

  /** The next entry of a tick's snapshot, judged by the snapshot. */
  function Walk(st: State, t: Task, a: Answers): Segment
    requires t.Walking?
  {
    if t.rest == [] then Segment(st, t, None, None)
    else
      var e := t.rest[0];
      if IsLive(e.att, t.live) || ShouldSkip(e.att, a.now) then Segment(st, Walking(t.rest[1..], t.live), None, None)
      else RestoreBegin(st, e, t.rest[1..], t.live, a)
  }

  // -------------------------------------------------------------- direct attach

  function DirectFinish(st: State, server: Id, d: Device, o: Options, a: Answers): Segment {
    match a.attach(0)
    case CommandError(_) => Segment(st, Done(), None, None)
    case Attached(port, local) =>
      Segment(DirectStored(st, server, d, o, a.attach(0), a), Done(), Some(Claim(a.newId, port, local)),
              Some(Entry(a.newId, DirectRecord(server, d, o, a.attach(0), a.now))))
  }

  function FetchResume(st: State, t: Task, a: Answers): Segment
    requires t.Fetching?
  {
    match a.fetch(0)
    case Unreachable => Segment(st, Done(), None, None)
    case Listed(scan) => match FirstDevice(scan, AtBusid(t.busid))
      case None => Segment(st, Done(), None, None)
      case Some(d) =>
        if d.status == SharedInUse then Segment(st, Done(), None, None)
        else if d.status == Unshared then Segment(st, Sharing(t.server, d, t.options), None, None)
        else DirectFinish(st, t.server, d, t.options, a)
  }

  function Resume(st: State, t: Task, a: Answers): Segment {
    match t
    case Walking(_, _) => Walk(st, t, a)
    case Querying(_, _, _, _, _, _, _) => GroupResume(st, t, a)
    case Relocating(_, _, _, _) => RelocateResume(st, t, a)
    case Fetching(_, _, _) => FetchResume(st, t, a)
    case Sharing(server, d, o) => if a.shareOk then DirectFinish(st, server, d, o, a) else Segment(st, Done(), None, None)
  }

  // ------------------------------------------------------------------- the system

  datatype System = System(st: State, kernel: Kernel, tasks: seq<Task>)

  /**
   * `Serve` is any handler without an await: detach, edit, and the server and group edits. `kept` are the ports
   * left after a drop, or after its detach, which goes by port number alone. `Restart` is a new process, after a
   * reboot with no port kept. `Appear` is a session nobody waits for any more: its port showed up after the last poll.
   */
  datatype Step =
    | StartTick
    | StartPush(server: Id, busid: string, serial: string, detachOk: bool, a: Answers)
    | StartGroup(group: Id, a: Answers)
    | StartDirect(server: Id, busid: string, options: Options)
    | ResumeTask(i: nat, a: Answers)
    | Serve(e: Event, kept: set<Port>)
    | Drop(kept: set<Port>)
    | Appear(port: Port, local: string)
    | Restart(kept: set<Port>, nodes: Id -> Option<StableNode>)

  function Snapshot(d: Dict<Record>, order: seq<Id>): seq<Entry> {
    if order == [] then []
    else
      var id := order[|order| - 1];
      Snapshot(d, order[..|order| - 1]) + (if id in d.entries then [Entry(id, d.entries[id])] else [])
  }

  /** The record a push concerns, and whether it was found by busid. */
  function PushTarget(st: State, server: Id, busid: string, serial: string, live: map<Port, string>): Option<(Entry, bool)> {
    var direct := FirstWhere(st.attachments.order, AtServerBusid(st.attachments, server, busid));
    if direct.Some? then Some((Entry(direct.value, st.attachments.entries[direct.value]), true))
    else if serial == "" then None
    else
      var moved := FirstWhere(st.attachments.order, AtServerSerial(st.attachments, server, serial, live));
      if moved.None? then None else Some((Entry(moved.value, st.attachments.entries[moved.value]), false))
  }

  /** The port a push detaches before it reattaches. */
  function PushDetaches(y: System, server: Id, busid: string, serial: string): Option<Port> {
    match PushTarget(y.st, server, busid, serial, LiveOf(y.kernel))
    case Some((e, true)) => if IsLive(e.att, LiveOf(y.kernel)) then Some(e.att.port) else None
    case _ => None
  }

  /** A push up to its first await, with the kernel after its detach. */
  function PushBegin(st: State, server: Id, busid: string, serial: string, live: map<Port, string>, a: Answers): Segment {
    match PushTarget(st, server, busid, serial, live)
    case None => Segment(st, Done(), None, None)
    case Some((e, true)) => RestoreBegin(st, e, [], map[], a)
    case Some((e, false)) =>
      var moved := Entry(e.id, e.att.(busid := busid));
      RestoreBegin(st.(attachments := st.attachments.Put(e.id, moved.att)), moved, [], map[], a)
  }

  predicate Enabled(y: System, x: Step) {
    match x
    case ResumeTask(i, _) => i < |y.tasks|
    case Serve(e, _) => !e.EDirectAttach? && !e.EGroupAttach? && !e.ETick? && !e.EPush? && !e.EStart?
    case _ => true
  }

  /** The coroutine part of a step, for the steps that run one. */
  function SegmentOf(y: System, x: Step): Option<Segment>
    requires Enabled(y, x)
  {
    match x
    case StartTick => Some(Segment(y.st, Walking(Snapshot(y.st.attachments, y.st.attachments.order), LiveOf(y.kernel)), None, None))
    case StartPush(server, busid, serial, _, a) => Some(PushBegin(y.st, server, busid, serial, LiveOf(y.kernel), a))
    case StartGroup(g, a) => Some(GroupBegin(y.st, g, [], map[], None, a.now))
    case StartDirect(server, busid, o) => Some(Segment(y.st, if server in y.st.servers then Fetching(server, busid, o) else Done(), None, None))
    case ResumeTask(i, a) => Some(Resume(y.st, y.tasks[i], a))
    case _ => None
  }

  /** The kernel as the step's own attach finds it: a push has detached by then. */
  function KernelBefore(y: System, x: Step): Kernel {
    match x
    case StartPush(server, busid, serial, detachOk, _) =>
      var port := PushDetaches(y, server, busid, serial);
      if port.Some? && detachOk then y.kernel - {port.value} else y.kernel
    case Serve(_, kept) => map p | p in y.kernel && p in kept :: y.kernel[p]
    case Drop(kept) => map p | p in y.kernel && p in kept :: y.kernel[p]
    case Restart(kept, _) => map p | p in y.kernel && p in kept :: y.kernel[p]
    case _ => y.kernel
  }

  function Exec(y: System, x: Step): System
    requires Enabled(y, x) && y.st.attachments.Valid()
  {
    match SegmentOf(y, x)
    case Some(g) =>
      System(g.st, Granted(KernelBefore(y, x), g.grant),
             if x.ResumeTask? then y.tasks[x.i := g.task] else y.tasks + [g.task])
    case None =>
      match x
      case Serve(e, _) => System(After(y.st, e), KernelBefore(y, x), y.tasks)
      case Restart(_, nodes) => System(Started(y.st, LiveOf(KernelBefore(y, x)), nodes), KernelBefore(y, x), [])
      case Appear(port, local) => y.(kernel := y.kernel[port := Session(local, None)])
      case _ => y.(kernel := KernelBefore(y, x))
  }

  // ------------------------------------------------------------------------ runs

  /** The steps `xs` can follow one another from `y`, each meeting the condition `ok` where it is taken. */
  ghost predicate RunOf(y: System, xs: seq<Step>, ok: (System, Step) -> bool)
    decreases |xs|
  {
    y.st.attachments.Valid() &&
    (xs == [] || (Enabled(y, xs[0]) && ok(y, xs[0]) && RunOf(Exec(y, xs[0]), xs[1..], ok)))
  }

  ghost function AfterSteps(y: System, xs: seq<Step>): System
    decreases |xs|
  {
    if xs == [] || !y.st.attachments.Valid() || !Enabled(y, xs[0]) then y else AfterSteps(Exec(y, xs[0]), xs[1..])
  }

  /** What every step keeps, every run keeps. */
  lemma {:induction false} RunKeeps(y: System, xs: seq<Step>, ok: (System, Step) -> bool, inv: System -> bool)
    requires inv(y) && RunOf(y, xs, ok)
    requires forall u, x :: inv(u) && u.st.attachments.Valid() && Enabled(u, x) && ok(u, x) ==> inv(Exec(u, x))
    ensures inv(AfterSteps(y, xs))
    decreases |xs|
  {
    if xs != [] { RunKeeps(Exec(y, xs[0]), xs[1..], ok, inv); }
  }

  /** No condition on the steps. */
  ghost function AnyStep(): (System, Step) -> bool {
    (y: System, x: Step) => true
  }
}
