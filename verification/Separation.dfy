/** One record per group under every interleaving, as long as no two coroutines in flight concern one group. */
module Separation {
  import opened Text
  import opened OrderedDict
  import opened UsbipClient
  import opened Backoff
  import opened ClientState
  import opened Registry
  import opened Interleaving
  import opened Interference
  import opened Snapshots
  import opened Sequential

  ghost predicate OnlyUnder(st: State, g: Id, id: Id) {
    forall j :: j in st.attachments.entries && st.attachments.entries[j].group == Some(g) ==> j == id
  }

  ghost predicate Unrecorded(st: State, g: Id) {
    forall j :: j in st.attachments.entries ==> st.attachments.entries[j].group != Some(g)
  }

  /** The rest of a tick's snapshot: each group's record is in the store as read, if at all, and no group comes twice. */
  ghost predicate RestClear(st: State, rest: seq<Entry>) {
    && (forall i :: 0 <= i < |rest| && rest[i].att.group.Some? ==> OnlyUnder(st, rest[i].att.group.value, rest[i].id))
    && (forall i, j :: 0 <= i < j < |rest| && rest[i].att.group.Some? ==> rest[i].att.group != rest[j].att.group)
  }

  /** Nothing else has been recorded for the groups of coroutine `t`. */
  ghost predicate Clear(st: State, t: Task) {
    match t
    case Walking(rest, _) => RestClear(st, rest)
    case Querying(rest, _, g, _, _, _, back) =>
      && RestClear(st, rest) && Unrecorded(st, g)
      && (forall e :: e in rest ==> e.att.group != Some(g))
      && (back.Some? ==> back.value.att.group == Some(g))
    case Relocating(rest, _, e, _) => RestClear(st, rest) && e.att.group.None?
    case _ => true
  }

  // ---------------------------------------------------------- other coroutines

  lemma WriteKeepsRestClear(st: State, u: State, put: Option<Entry>, rest: seq<Entry>)
    requires Writes(st, u, put) && RestClear(st, rest)
    requires put.Some? && put.value.att.group.Some? ==> forall e :: e in rest ==> e.att.group != put.value.att.group
    ensures RestClear(u, rest)
  {
    forall i | 0 <= i < |rest| && rest[i].att.group.Some?
      ensures OnlyUnder(u, rest[i].att.group.value, rest[i].id)
    {
      assert rest[i] in rest;
    }
  }

  lemma WriteKeepsClear(st: State, u: State, put: Option<Entry>, t: Task)
    requires Writes(st, u, put) && Clear(st, t)
    requires put.Some? && put.value.att.group.Some? ==> put.value.att.group.value !in GroupsOf(t)
    ensures Clear(u, t)
  {
    match t
    case Walking(rest, _) => WriteKeepsRestClear(st, u, put, rest);
    case Querying(rest, _, _, _, _, _, _) =>
      assert forall e :: e in rest ==> e in EntriesOf(t);
      WriteKeepsRestClear(st, u, put, rest);
    case Relocating(rest, _, _, _) =>
      assert forall e :: e in rest ==> e in EntriesOf(t);
      WriteKeepsRestClear(st, u, put, rest);
    case _ =>
  }

  lemma NothingAddedKeepsClear(st: State, u: State, t: Task)
    requires AddsNothing(st, u) && Clear(st, t)
    ensures Clear(u, t)
  {
  }

  // -------------------------------------------------------- the coroutine itself

  /** What it writes is free to be written, and it goes on with nothing else recorded for its groups. */
  ghost predicate StaysClear(st: State, g: Segment) {
    Clear(g.st, g.task) && (g.put.Some? ==> GroupIsFree(st, g.put.value))
  }

  lemma NoneFound(d: Dict<Record>, g: Id)
    requires forall j :: j in d.entries ==> d.entries[j].group != Some(g)
    ensures ActiveFor(d, g).None?
  {
    if ActiveFor(d, g).Some? { assert false; }
  }

  lemma GroupFailedClear(st: State, rest: seq<Entry>, live: map<Port, string>, back: Option<Entry>, now: int)
    requires RestClear(st, rest)
    requires back.Some? ==> back.value.att.group.Some? && Unrecorded(st, back.value.att.group.value)
    requires back.Some? ==> forall e :: e in rest ==> e.att.group != back.value.att.group
    ensures StaysClear(st, GroupFailed(st, rest, live, back, now))
  {
    var g := GroupFailed(st, rest, live, back, now);
    GroupFailedWrites(st, rest, live, back, now);
    WriteKeepsRestClear(st, g.st, g.put, rest);
  }

  lemma GroupRestoreClear(st: State, e: Entry, rest: seq<Entry>, live: map<Port, string>, a: Answers)
    requires e.att.group.Some? && OnlyUnder(st, e.att.group.value, e.id) && RestClear(st, rest)
    requires forall f :: f in rest ==> f.att.group != e.att.group
    ensures StaysClear(st, GroupBegin(st.(attachments := st.attachments.Pop(e.id)), e.att.group.value, rest, live, Some(e), a.now))
  {
    var popped := st.(attachments := st.attachments.Pop(e.id));
    assert Writes(st, popped, None);
    WriteKeepsRestClear(st, popped, None, rest);
    NoneFound(popped.attachments, e.att.group.value);
    GroupFailedClear(popped, rest, live, Some(e), a.now);
  }

  lemma RestoreBeginClear(st: State, e: Entry, rest: seq<Entry>, live: map<Port, string>, a: Answers)
    requires e.att.group.Some? ==> OnlyUnder(st, e.att.group.value, e.id)
    requires RestClear(st, rest) && (e.att.group.Some? ==> forall f :: f in rest ==> f.att.group != e.att.group)
    ensures StaysClear(st, RestoreBegin(st, e, rest, live, a))
  {
    var g := RestoreBegin(st, e, rest, live, a);
    RestoreBeginWrites(st, e, rest, live, a);
    if e.att.autoFailover && e.att.group.Some? {
      GroupRestoreClear(st, e, rest, live, a);
    } else {
      WriteKeepsRestClear(st, g.st, g.put, rest);
    }
  }

  lemma GroupResumeClear(st: State, t: Task, a: Answers)
    requires t.Querying? && Clear(st, t)
    ensures StaysClear(st, GroupResume(st, t, a))
  {
    var g := GroupResume(st, t, a);
    GroupResumeWrites(st, t, a);
    if g.task.Walking? { WriteKeepsRestClear(st, g.st, g.put, t.rest); }
  }

  lemma RelocateResumeClear(st: State, t: Task, a: Answers)
    requires t.Relocating? && Clear(st, t)
    ensures StaysClear(st, RelocateResume(st, t, a))
  {
    var g := RelocateResume(st, t, a);
    RelocateResumeWrites(st, t, a);
    WriteKeepsRestClear(st, g.st, g.put, t.rest);
  }

  lemma ResumeClear(st: State, t: Task, a: Answers)
    requires Clear(st, t)
    ensures StaysClear(st, Resume(st, t, a))
  {
    match t
    case Walking(rest, live) =>
      if rest != [] {
        assert rest == [rest[0]] + rest[1..];
        RestTail(st, rest);
        RestoreBeginClear(st, rest[0], rest[1..], live, a);
      }
    case Querying(_, _, _, _, _, _, _) => GroupResumeClear(st, t, a);
    case Relocating(_, _, _, _) => RelocateResumeClear(st, t, a);
    case Fetching(_, _, _) =>
    case Sharing(_, _, _) =>
  }

  lemma RestTail(st: State, rest: seq<Entry>)
    requires RestClear(st, rest) && rest != []
    ensures RestClear(st, rest[1..])
    ensures rest[0].att.group.Some? ==> forall f :: f in rest[1..] ==> f.att.group != rest[0].att.group
  {
    forall i | 0 <= i < |rest[1..]|
      ensures rest[1..][i] == rest[i + 1]
    {
    }
  }

  // ---------------------------------------------------------------- starting

  lemma TickStartsClear(st: State)
    requires st.attachments.Valid() && OnePerGroup(st.attachments)
    ensures RestClear(st, Snapshot(st.attachments, st.attachments.order))
  {
    var order := st.attachments.order;
    var rest := Snapshot(st.attachments, order);
    SnapshotLists(st.attachments, order);
    forall i, j | 0 <= i < j < |rest| && rest[i].att.group.Some?
      ensures rest[i].att.group != rest[j].att.group
    {
      assert order[i] != order[j];
    }
  }

  lemma PushStartsClear(st: State, server: Id, busid: string, serial: string, live: map<Port, string>, a: Answers)
    requires st.attachments.Valid() && OnePerGroup(st.attachments)
    ensures StaysClear(st, PushBegin(st, server, busid, serial, live, a))
  {
    match PushTarget(st, server, busid, serial, live)
    case None =>
    case Some((e, true)) => RestoreBeginClear(st, e, [], map[], a);
    case Some((e, false)) =>
      MovedStartsClear(st, e, Entry(e.id, e.att.(busid := busid)), a);
  }

  lemma MovedStartsClear(st: State, e: Entry, moved: Entry, a: Answers)
    requires OnePerGroup(st.attachments) && e.id in st.attachments.entries && st.attachments.entries[e.id] == e.att
    requires moved.id == e.id && Alike(moved.att, e.att)
    ensures StaysClear(st, RestoreBegin(st.(attachments := st.attachments.Put(e.id, moved.att)), moved, [], map[], a))
  {
    RestoreBeginClear(st.(attachments := st.attachments.Put(e.id, moved.att)), moved, [], map[], a);
  }

  lemma GroupStartsClear(st: State, g: Id, a: Answers)
    requires st.attachments.Valid()
    ensures StaysClear(st, GroupBegin(st, g, [], map[], None, a.now))
  {
    if ActiveFor(st.attachments, g).None? { NoneActive(st.attachments, g); }
  }

  lemma SegmentClear(y: System, x: Step)
    requires Enabled(y, x) && y.st.attachments.Valid() && SegmentOf(y, x).Some? && OnePerGroup(y.st.attachments)
    requires x.ResumeTask? ==> Clear(y.st, y.tasks[x.i])
    ensures StaysClear(y.st, SegmentOf(y, x).value)
  {
    match x
    case StartTick => TickStartsClear(y.st);
    case StartPush(server, busid, serial, _, a) => PushStartsClear(y.st, server, busid, serial, LiveOf(y.kernel), a);
    case StartGroup(g, a) => GroupStartsClear(y.st, g, a);
    case StartDirect(_, _, _) =>
    case ResumeTask(i, a) => ResumeClear(y.st, y.tasks[i], a);
  }

  // -------------------------------------------------------------------- runs

  /** No two coroutines in flight concern one group. */
  ghost predicate Separate(tasks: seq<Task>) {
    forall i, j :: 0 <= i < j < |tasks| ==> GroupsOf(tasks[i]) !! GroupsOf(tasks[j])
  }

  ghost predicate Apart(y: System) {
    OnePerGroup(y.st.attachments) && Separate(y.tasks) && forall i :: 0 <= i < |y.tasks| ==> Clear(y.st, y.tasks[i])
  }

  ghost function ApartAt(): System -> bool {
    (y: System) => Apart(y)
  }

  /** A coroutine is started only while no other in flight concerns one of its groups. */
  ghost predicate Admitted(y: System, x: Step) {
    Enabled(y, x) && SegmentOf(y, x).Some? && !x.ResumeTask? ==>
      forall i :: 0 <= i < |y.tasks| ==> GroupsOf(Source(y, x)) !! GroupsOf(y.tasks[i])
  }

  ghost function Admitting(): (System, Step) -> bool {
    (y: System, x: Step) => Admitted(y, x)
  }

  /** The coroutine a step runs shares no group with any other. */
  lemma SourceIsSeparate(y: System, x: Step, i: nat)
    requires Enabled(y, x) && SegmentOf(y, x).Some? && Separate(y.tasks) && Admitted(y, x)
    requires i < |y.tasks| && (x.ResumeTask? ==> i != x.i)
    ensures GroupsOf(Source(y, x)) !! GroupsOf(y.tasks[i])
  {
  }

  lemma OthersStayClear(y: System, x: Step, i: nat)
    requires Enabled(y, x) && y.st.attachments.Valid() && SegmentOf(y, x).Some? && Apart(y) && Admitted(y, x)
    requires i < |y.tasks| && (x.ResumeTask? ==> i != x.i)
    ensures Clear(SegmentOf(y, x).value.st, y.tasks[i]) && GroupsOf(SegmentOf(y, x).value.task) !! GroupsOf(y.tasks[i])
  {
    SourceIsSeparate(y, x, i);
    StepFrom(y, x);
    SegmentIsWrite(y, x);
    WriteKeepsClear(y.st, SegmentOf(y, x).value.st, PutOf(y, x), y.tasks[i]);
  }

  lemma StepKeepsApart(y: System, x: Step)
    requires Enabled(y, x) && y.st.attachments.Valid() && Apart(y) && Admitted(y, x)
    ensures Apart(Exec(y, x))
  {
    OnePerGroupExactlyIfFree(y, x);
    if SegmentOf(y, x).Some? {
      SegmentClear(y, x);
      forall i | 0 <= i < |y.tasks| && (x.ResumeTask? ==> i != x.i)
        ensures Clear(SegmentOf(y, x).value.st, y.tasks[i]) && GroupsOf(SegmentOf(y, x).value.task) !! GroupsOf(y.tasks[i])
      {
        OthersStayClear(y, x, i);
      }
      TasksApart(y, x);
    } else {
      OtherStepsAddNothing(y, x);
      forall i | 0 <= i < |y.tasks|
        ensures Clear(Exec(y, x).st, y.tasks[i])
      {
        NothingAddedKeepsClear(y.st, Exec(y, x).st, y.tasks[i]);
      }
    }
  }

  lemma TasksApart(y: System, x: Step)
    requires Enabled(y, x) && y.st.attachments.Valid() && SegmentOf(y, x).Some? && Separate(y.tasks)
    requires
      var g := SegmentOf(y, x).value;
      Clear(g.st, g.task) && forall i :: 0 <= i < |y.tasks| && (x.ResumeTask? ==> i != x.i) ==>
        Clear(g.st, y.tasks[i]) && GroupsOf(g.task) !! GroupsOf(y.tasks[i])
    ensures Separate(Exec(y, x).tasks)
    ensures forall i :: 0 <= i < |Exec(y, x).tasks| ==> Clear(Exec(y, x).st, Exec(y, x).tasks[i])
  {
    TaskReplaced(y, x);
  }

  /**
   * One record per group under every interleaving in which no coroutine is started while another that concerns one
   * of its groups is in flight. Which single step breaks it otherwise: `Interference.OnePerGroupExactlyIfFree`.
   */
  lemma SeparateCoroutinesKeepOnePerGroup(y: System, xs: seq<Step>)
    requires Apart(y) && RunOf(y, xs, Admitting())
    ensures OnePerGroup(AfterSteps(y, xs).st.attachments)
  {
    forall u, x | ApartAt()(u) && u.st.attachments.Valid() && Enabled(u, x) && Admitting()(u, x)
      ensures ApartAt()(Exec(u, x))
    {
      StepKeepsApart(u, x);
    }
    RunKeeps(y, xs, Admitting(), ApartAt());
  }

  /** Any sound store with no coroutine in flight starts such a run. */
  lemma QuietSystemIsApart(y: System)
    requires Sound(y.st) && y.tasks == []
    ensures Apart(y) && Named(y)
  {
  }
}
