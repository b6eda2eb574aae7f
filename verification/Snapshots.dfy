/** What a suspended coroutine holds and names, and what interleavings keep as long as none of it is pulled away. */
module Snapshots {
  import opened Text
  import opened OrderedDict
  import opened UsbipClient
  import opened Backoff
  import opened ClientState
  import opened Interleaving
  import opened Interference

  /** The records a coroutine may still write back. */
  ghost function EntriesOf(t: Task): seq<Entry> {
    match t
    case Walking(rest, _) => rest
    case Querying(rest, _, _, _, _, _, back) => rest + (if back.Some? then [back.value] else [])
    case Relocating(rest, _, e, _) => rest + [e]
    case _ => []
  }

  ghost function HeldIds(t: Task): set<Id> {
    set e | e in EntriesOf(t) :: e.id
  }

  /** The servers of the records it may write. */
  ghost function ServersOf(t: Task): set<Id> {
    (set e | e in EntriesOf(t) :: e.att.server) +
    (match t
     case Querying(_, _, _, group, servers, _, _) => set c | c in group.candidates && c.server in servers :: c.server
     case Fetching(server, _, _) => {server}
     case Sharing(server, _, _) => {server}
     case _ => {})
  }

  /** The groups of the records it may write. */
  ghost function GroupsOf(t: Task): set<Id> {
    (set e | e in EntriesOf(t) && e.att.group.Some? :: e.att.group.value) + (if t.Querying? then {t.g} else {})
  }

  /** What a step of coroutine `t` writes, and what it holds and names afterwards, it held and named before. */
  ghost predicate From(st: State, t: Task, g: Segment, newId: Option<Id>) {
    && HeldIds(g.task) <= HeldIds(t)
    && ServersOf(g.task) <= ServersOf(t) + st.servers.Keys
    && GroupsOf(g.task) <= GroupsOf(t)
    && (g.put.Some? ==>
          var e := g.put.value;
          && (e.id in HeldIds(t) || newId == Some(e.id))
          && e.att.server in ServersOf(t)
          && (e.att.group.Some? ==> e.att.group.value in GroupsOf(t)))
  }

  ghost predicate Within(rest: seq<Entry>, t: Task) {
    forall e :: e in rest ==> e in EntriesOf(t)
  }

  lemma WalkingFrom(rest: seq<Entry>, live: map<Port, string>, t: Task)
    requires Within(rest, t)
    ensures
      var u := Walking(rest, live);
      HeldIds(u) <= HeldIds(t) && ServersOf(u) <= ServersOf(t) && GroupsOf(u) <= GroupsOf(t)
  {
  }

  lemma EntryFrom(e: Entry, t: Task)
    requires e in EntriesOf(t)
    ensures e.id in HeldIds(t) && e.att.server in ServersOf(t) && (e.att.group.Some? ==> e.att.group.value in GroupsOf(t))
  {
  }

  lemma RelocatingFrom(rest: seq<Entry>, live: map<Port, string>, e: Entry, error: string, t: Task)
    requires Within(rest, t) && e in EntriesOf(t)
    ensures
      var u := Relocating(rest, live, e, error);
      HeldIds(u) <= HeldIds(t) && ServersOf(u) <= ServersOf(t) && GroupsOf(u) <= GroupsOf(t)
  {
    assert Within(rest + [e], t);
  }

  lemma QueryingFrom(st: State, rest: seq<Entry>, live: map<Port, string>, g: Id, group: Group, e: Entry, t: Task)
    requires Within(rest, t) && e in EntriesOf(t) && e.att.group == Some(g)
    ensures
      var u := Querying(rest, live, g, group, st.servers, 0, Some(e));
      HeldIds(u) <= HeldIds(t) && ServersOf(u) <= ServersOf(t) + st.servers.Keys && GroupsOf(u) <= GroupsOf(t)
  {
    assert Within(rest + [e], t);
    EntryFrom(e, t);
  }

  /** The id that a coroutine about to attach for the first time may generate. */
  ghost function Generated(t: Task, a: Answers): Option<Id> {
    if t.Querying? || t.Fetching? || t.Sharing? then Some(a.newId) else None
  }

  lemma RestoreBeginFrom(st: State, e: Entry, rest: seq<Entry>, live: map<Port, string>, a: Answers, t: Task)
    requires Within(rest, t) && e in EntriesOf(t)
    ensures From(st, t, RestoreBegin(st, e, rest, live, a), None)
  {
    WalkingFrom(rest, live, t);
    EntryFrom(e, t);
    if e.att.autoFailover {
      if e.att.group.Some? {
        GroupBeginFrom(st.(attachments := st.attachments.Pop(e.id)), e, rest, live, a, t);
      } else if e.att.server in st.servers && a.attach(0).CommandError? {
        RelocatingFrom(rest, live, e, a.attach(0).output, t);
      }
    }
  }

  lemma GroupBeginFrom(st: State, e: Entry, rest: seq<Entry>, live: map<Port, string>, a: Answers, t: Task)
    requires Within(rest, t) && e in EntriesOf(t) && e.att.group.Some?
    ensures From(st, t, GroupBegin(st, e.att.group.value, rest, live, Some(e), a.now), None)
  {
    var g := e.att.group.value;
    WalkingFrom(rest, live, t);
    EntryFrom(e, t);
    if g in st.groups { QueryingFrom(st, rest, live, g, st.groups[g], e, t); }
  }

  lemma GroupResumeFrom(st: State, t: Task, a: Answers)
    requires t.Querying?
    ensures From(st, t, GroupResume(st, t, a), Some(a.newId))
  {
    WalkingFrom(t.rest, t.live, t);
    if t.back.Some? { EntryFrom(t.back.value, t); }
    var g := GroupResume(st, t, a);
    if g.task.Querying? {
      assert EntriesOf(g.task) == EntriesOf(t);
    } else if t.k < |t.group.candidates| {
      assert t.group.candidates[t.k] in t.group.candidates;
    }
  }

  lemma RelocateResumeFrom(st: State, t: Task, a: Answers)
    requires t.Relocating?
    ensures From(st, t, RelocateResume(st, t, a), None)
  {
    WalkingFrom(t.rest, t.live, t);
    EntryFrom(t.entry, t);
  }

  lemma ResumeFrom(st: State, t: Task, a: Answers)
    ensures From(st, t, Resume(st, t, a), Generated(t, a))
  {
    match t
    case Walking(rest, live) =>
      if rest != [] {
        WalkingFrom(rest[1..], live, t);
        RestoreBeginFrom(st, rest[0], rest[1..], live, a, t);
      }
    case Querying(_, _, _, _, _, _, _) => GroupResumeFrom(st, t, a);
    case Relocating(_, _, _, _) => RelocateResumeFrom(st, t, a);
    case Fetching(_, _, _) =>
    case Sharing(_, _, _) =>
  }

  /** The entry a push restores, with the busid pushed. */
  ghost function PushedEntry(target: (Entry, bool), busid: string): Entry {
    if target.1 then target.0 else Entry(target.0.id, target.0.att.(busid := busid))
  }

  ghost function PushSource(found: Option<(Entry, bool)>, busid: string): Task {
    match found
    case None => Done()
    case Some(target) => Relocating([], map[], PushedEntry(target, busid), "")
  }

  /** The coroutine a step runs, as it holds and names things before the step. */
  ghost function Source(y: System, x: Step): Task
    requires Enabled(y, x) && SegmentOf(y, x).Some?
  {
    match x
    case ResumeTask(i, _) => y.tasks[i]
    case StartPush(server, busid, serial, _, _) => PushSource(PushTarget(y.st, server, busid, serial, LiveOf(y.kernel)), busid)
    case _ => SegmentOf(y, x).value.task
  }

  /** The id the step may generate. */
  ghost function NewIdOf(y: System, x: Step): Option<Id>
    requires Enabled(y, x)
  {
    match x
    case ResumeTask(i, a) => Generated(y.tasks[i], a)
    case _ => None
  }

  lemma StepFrom(y: System, x: Step)
    requires Enabled(y, x) && SegmentOf(y, x).Some?
    ensures From(y.st, Source(y, x), SegmentOf(y, x).value, NewIdOf(y, x))
  {
    match x
    case ResumeTask(i, a) => ResumeFrom(y.st, y.tasks[i], a);
    case StartPush(server, busid, serial, _, a) =>
      var found := PushTarget(y.st, server, busid, serial, LiveOf(y.kernel));
      if found.Some? {
        var e := PushedEntry(found.value, busid);
        var u := if found.value.1 then y.st else y.st.(attachments := y.st.attachments.Put(e.id, e.att));
        RestoreBeginFrom(u, e, [], map[], a, Source(y, x));
      }
    case _ =>
  }

  ghost predicate InStore(st: State, e: Entry) {
    e.id in st.attachments.entries && Alike(st.attachments.entries[e.id], e.att)
  }

  lemma {:induction false} SnapshotInStore(st: State, order: seq<Id>)
    ensures forall e :: e in Snapshot(st.attachments, order) ==> InStore(st, e)
  {
    if order != [] { SnapshotInStore(st, order[..|order| - 1]); }
  }

  /** It holds records as they are stored, and names servers and groups that exist or are named by them. */
  ghost predicate HoldsStored(st: State, t: Task) {
    && (forall e :: e in EntriesOf(t) ==> InStore(st, e))
    && (ServersExist(st) ==> ServersOf(t) <= st.servers.Keys)
    && (GroupsExist(st) ==> GroupsOf(t) <= st.groups.Keys)
  }

  lemma EntriesHoldStored(st: State, t: Task)
    requires t.Walking? || t.Relocating?
    requires forall e :: e in EntriesOf(t) ==> InStore(st, e)
    ensures HoldsStored(st, t)
  {
  }

  lemma PushHoldsStored(st: State, server: Id, busid: string, serial: string, live: map<Port, string>)
    requires st.attachments.Valid()
    ensures HoldsStored(st, PushSource(PushTarget(st, server, busid, serial, live), busid))
  {
    var found := PushTarget(st, server, busid, serial, live);
    if found.Some? { EntriesHoldStored(st, PushSource(found, busid)); }
  }

  lemma TickHoldsStored(st: State, live: map<Port, string>)
    ensures HoldsStored(st, Walking(Snapshot(st.attachments, st.attachments.order), live))
  {
    SnapshotInStore(st, st.attachments.order);
    EntriesHoldStored(st, Walking(Snapshot(st.attachments, st.attachments.order), live));
  }

  lemma GroupStartHoldsStored(st: State, g: Id, a: Answers)
    ensures HoldsStored(st, GroupBegin(st, g, [], map[], None, a.now).task)
  {
  }

  /** A coroutine that is only starting does. */
  lemma StartHoldsStored(y: System, x: Step)
    requires Enabled(y, x) && y.st.attachments.Valid() && SegmentOf(y, x).Some? && !x.ResumeTask?
    ensures HoldsStored(y.st, Source(y, x))
  {
    match x
    case StartTick => TickHoldsStored(y.st, LiveOf(y.kernel));
    case StartPush(server, busid, serial, _, _) => PushHoldsStored(y.st, server, busid, serial, LiveOf(y.kernel));
    case StartGroup(g, a) => GroupStartHoldsStored(y.st, g, a);
    case StartDirect(_, _, _) =>
  }

  // ----------------------------------------------- a removed record stays removed

  /** `id` was used, is in the store no more, and no coroutine holds its record. */
  ghost predicate Gone(y: System, id: Id) {
    id in y.st.used && id !in y.st.attachments.entries && forall i :: 0 <= i < |y.tasks| ==> id !in HeldIds(y.tasks[i])
  }

  ghost function GoneAt(id: Id): System -> bool {
    (y: System) => Gone(y, id)
  }

  /** An id that a step may generate is new. */
  ghost predicate IdIsFresh(y: System, x: Step)
    requires Enabled(y, x)
  {
    NewIdOf(y, x).Some? ==> NewIdOf(y, x).value !in y.st.used
  }

  ghost function FreshIds(): (System, Step) -> bool {
    (y: System, x: Step) => Enabled(y, x) && IdIsFresh(y, x)
  }

  lemma StepKeepsGone(y: System, x: Step, id: Id)
    requires Enabled(y, x) && y.st.attachments.Valid() && Gone(y, id) && IdIsFresh(y, x)
    ensures Gone(Exec(y, x), id)
  {
    ReturnsExactlyIfWritten(y, x, id);
    if SegmentOf(y, x).Some? {
      var g := SegmentOf(y, x).value;
      SegmentIsWrite(y, x);
      StepFrom(y, x);
      if !x.ResumeTask? { StartHoldsStored(y, x); }
      assert id !in HeldIds(Source(y, x));
      TaskReplaced(y, x);
    } else {
      OtherStepsAddNothing(y, x);
    }
  }

  lemma TaskReplaced(y: System, x: Step)
    requires Enabled(y, x) && y.st.attachments.Valid() && SegmentOf(y, x).Some?
    ensures
      var z := Exec(y, x);
      && z.st == SegmentOf(y, x).value.st
      && forall i :: 0 <= i < |z.tasks| ==>
           z.tasks[i] == SegmentOf(y, x).value.task || (i < |y.tasks| && z.tasks[i] == y.tasks[i] && !(x.ResumeTask? && i == x.i))
  {
  }

  /**
   * Once a record is removed while no coroutine holds a snapshot of it, it never comes back, under any interleaving.
   * While one does, it comes back exactly by that coroutine's write (`Interference.ReturnsExactlyIfWritten`).
   */
  lemma RemovedStaysRemoved(y: System, xs: seq<Step>, id: Id)
    requires Gone(y, id) && RunOf(y, xs, FreshIds())
    ensures id !in AfterSteps(y, xs).st.attachments.entries
  {
    forall u, x | GoneAt(id)(u) && u.st.attachments.Valid() && Enabled(u, x) && FreshIds()(u, x)
      ensures GoneAt(id)(Exec(u, x))
    {
      StepKeepsGone(u, x, id);
    }
    RunKeeps(y, xs, FreshIds(), GoneAt(id));
  }

  // ------------------------------------------------ records name what exists

  /** Every server and group that a record names, or a coroutine may yet write into one, exists. */
  ghost predicate Named(y: System) {
    && ServersExist(y.st) && GroupsExist(y.st)
    && forall i :: 0 <= i < |y.tasks| ==> ServersOf(y.tasks[i]) <= y.st.servers.Keys && GroupsOf(y.tasks[i]) <= y.st.groups.Keys
  }

  ghost function NamedAt(): System -> bool {
    (y: System) => Named(y)
  }

  /** No server or group is deleted while a coroutine in flight names it. */
  ghost predicate Spares(y: System, x: Step) {
    x.Serve? ==>
      && (x.e.EServerDelete? ==> forall i :: 0 <= i < |y.tasks| ==> x.e.id !in ServersOf(y.tasks[i]))
      && (x.e.EGroupDelete? ==> forall i :: 0 <= i < |y.tasks| ==> x.e.id !in GroupsOf(y.tasks[i]))
  }

  ghost function Sparing(): (System, Step) -> bool {
    (y: System, x: Step) => Spares(y, x)
  }

  lemma SourceIsNamed(y: System, x: Step)
    requires Enabled(y, x) && y.st.attachments.Valid() && SegmentOf(y, x).Some? && Named(y)
    ensures ServersOf(Source(y, x)) <= y.st.servers.Keys && GroupsOf(Source(y, x)) <= y.st.groups.Keys
  {
    if !x.ResumeTask? { StartHoldsStored(y, x); }
  }

  lemma ServeSpares(y: System, x: Step)
    requires Enabled(y, x) && y.st.attachments.Valid() && x.Serve? && Spares(y, x) && Named(y)
    ensures forall i :: 0 <= i < |y.tasks| ==>
      ServersOf(y.tasks[i]) <= After(y.st, x.e).servers.Keys && GroupsOf(y.tasks[i]) <= After(y.st, x.e).groups.Keys
  {
  }

  lemma StepKeepsNamed(y: System, x: Step)
    requires Enabled(y, x) && y.st.attachments.Valid() && Named(y) && Spares(y, x)
    ensures Named(Exec(y, x))
  {
    ServersExistExactlyIfNamed(y, x);
    GroupsExistExactlyIfNamed(y, x);
    if SegmentOf(y, x).Some? {
      SourceIsNamed(y, x);
      StepFrom(y, x);
      SegmentIsWrite(y, x);
      TaskReplaced(y, x);
    } else {
      OtherStepsAddNothing(y, x);
      if x.Serve? { ServeSpares(y, x); }
    }
  }

  /** Then every record's server and group exist under every interleaving. */
  lemma SparedNamesStayValid(y: System, xs: seq<Step>)
    requires Named(y) && RunOf(y, xs, Sparing())
    ensures ServersExist(AfterSteps(y, xs).st) && GroupsExist(AfterSteps(y, xs).st)
  {
    forall u, x | NamedAt()(u) && u.st.attachments.Valid() && Enabled(u, x) && Sparing()(u, x)
      ensures NamedAt()(Exec(u, x))
    {
      StepKeepsNamed(u, x);
    }
    RunKeeps(y, xs, Sparing(), NamedAt());
  }
}
