/** How the two granularities relate: a coroutine that runs without interference computes the atomic handler. */
module Sequential {
  import opened Text
  import opened OrderedDict
  import opened UsbipClient
  import opened Backoff
  import opened ClientState
  import opened Interleaving

  /** Resumes a restore, a group attach or a direct attach with the same answers until it is done. */
  function Finish(st: State, t: Task, a: Answers): State
    decreases if t.Querying? then |t.group.candidates| - t.k else 0
  {
    match t
    case Querying(_, _, _, group, _, k, _) =>
      var g := GroupResume(st, t, a);
      if k < |group.candidates| && g.task.Querying? then Finish(g.st, g.task, a) else g.st
    case Relocating(_, _, _, _) => RelocateResume(st, t, a).st
    case Sharing(_, _, _) => Resume(st, t, a).st
    case Fetching(_, _, _) =>
      var g := FetchResume(st, t, a);
      if g.task.Sharing? then Resume(g.st, g.task, a).st else g.st
    case Walking(_, _) => st
  }

  lemma QueryingMovesOn(st: State, t: Task, a: Answers)
    requires t.Querying? && t.k < |t.group.candidates| && !Qualifies(t.servers, t.group.candidates[t.k], t.k, a)
    ensures Finish(st, t, a) == Finish(st, t.(k := t.k + 1), a)
  {
  }

  lemma {:induction false} QueryingSkips(st: State, t: Task, a: Answers)
    requires t.Querying? && t.k <= |t.group.candidates|
    ensures Finish(st, t, a) == Finish(st, t.(k := Choice(t.servers, t.group.candidates, t.k, a)), a)
    decreases |t.group.candidates| - t.k
  {
    if t.k < |t.group.candidates| && !Qualifies(t.servers, t.group.candidates[t.k], t.k, a) {
      QueryingMovesOn(st, t, a);
      QueryingSkips(st, t.(k := t.k + 1), a);
    }
  }

  /** From candidate `k` on, the coroutine attaches the candidate the atomic handler would choose, or fails with it. */
  lemma QueryingFinishes(st: State, t: Task, a: Answers)
    requires t.Querying? && t.servers == st.servers && t.g in st.groups && t.group == st.groups[t.g] && t.k <= |t.group.candidates|
    ensures
      var k := Choice(st.servers, t.group.candidates, t.k, a);
      Finish(st, t, a) ==
        if k < |t.group.candidates| then GroupStored(st, t.g, k, a) else GroupFailed(st, t.rest, t.live, t.back, a.now).st
  {
    QueryingSkips(st, t, a);
    QueryingEnds(st, t.(k := Choice(st.servers, t.group.candidates, t.k, a)), a);
  }

  lemma QueryingEnds(st: State, t: Task, a: Answers)
    requires t.Querying? && t.servers == st.servers && t.g in st.groups && t.group == st.groups[t.g] && t.k <= |t.group.candidates|
    requires t.k < |t.group.candidates| ==> Qualifies(st.servers, t.group.candidates[t.k], t.k, a)
    ensures Finish(st, t, a) ==
      if t.k < |t.group.candidates| then GroupStored(st, t.g, t.k, a) else GroupFailed(st, t.rest, t.live, t.back, a.now).st
  {
  }

  lemma RestoreAloneIsAtomic(st: State, e: Entry, rest: seq<Entry>, live: map<Port, string>, a: Answers)
    ensures
      var g := RestoreBegin(st, e, rest, live, a);
      Finish(g.st, g.task, a) == Restore(st, e.id, e.att, a).0
  {
    if e.att.autoFailover && e.att.group.Some? {
      var popped := st.(attachments := st.attachments.Pop(e.id));
      var g := GroupBegin(popped, e.att.group.value, rest, live, Some(e), a.now);
      if g.task.Querying? {
        QueryingFinishes(popped, g.task, a);
      }
    }
  }

  /** A tick that nothing interrupts, entry by entry. */
  function TickAlone(st: State, rest: seq<Entry>, live: map<Port, string>, answers: Id -> Answers): State
    decreases |rest|
  {
    if rest == [] then st
    else
      var a := answers(rest[0].id);
      var g := Walk(st, Walking(rest, live), a);
      TickAlone(Finish(g.st, g.task, a), rest[1..], live, answers)
  }

  lemma {:induction false} SnapshotLists(d: Dict<Record>, order: seq<Id>)
    requires forall id :: id in order ==> id in d.entries
    ensures |Snapshot(d, order)| == |order|
    ensures forall i :: 0 <= i < |order| ==> Snapshot(d, order)[i] == Entry(order[i], d.entries[order[i]])
  {
    if order != [] { SnapshotLists(d, order[..|order| - 1]); }
  }

  lemma WalkAloneIsVisited(st: State, rest: seq<Entry>, live: map<Port, string>, a: Answers)
    requires rest != []
    ensures
      var g := Walk(st, Walking(rest, live), a);
      Finish(g.st, g.task, a) == Visited(st, rest[0].id, rest[0].att, live, a)
  {
    RestoreAloneIsAtomic(st, rest[0], rest[1..], live, a);
  }

  lemma {:induction false} TickAloneFrom(
      st: State, snap: Dict<Record>, entries: seq<Entry>, from: nat, live: map<Port, string>, answers: Id -> Answers)
    requires snap.Valid() && from <= |snap.order| == |entries| && entries == Snapshot(snap, snap.order)
    ensures TickAlone(st, entries[from..], live, answers) == TickFrom(st, snap, from, live, answers)
    decreases |snap.order| - from
  {
    SnapshotLists(snap, snap.order);
    var rest := entries[from..];
    if from < |snap.order| {
      var a := answers(snap.order[from]);
      assert rest[0] == Entry(snap.order[from], snap.entries[snap.order[from]]);
      assert rest[1..] == entries[from + 1..];
      WalkAloneIsVisited(st, rest, live, a);
      TickAloneFrom(Visited(st, rest[0].id, rest[0].att, live, a), snap, entries, from + 1, live, answers);
    }
  }

  /** An uninterrupted tick is the atomic tick: what is proved of runs of handlers holds of it. */
  lemma TickAloneIsAtomic(st: State, live: map<Port, string>, answers: Id -> Answers)
    requires st.attachments.Valid()
    ensures TickAlone(st, Snapshot(st.attachments, st.attachments.order), live, answers) == Ticked(st, live, answers)
  {
    var entries := Snapshot(st.attachments, st.attachments.order);
    SnapshotLists(st.attachments, st.attachments.order);
    assert entries[0..] == entries;
    TickAloneFrom(st, st.attachments, entries, 0, live, answers);
  }

  /** So is an uninterrupted push. */
  lemma PushAloneIsAtomic(st: State, server: Id, busid: string, serial: string, live: map<Port, string>, a: Answers)
    ensures
      var g := PushBegin(st, server, busid, serial, live, a);
      Finish(g.st, g.task, a) == Pushed(st, server, busid, serial, live, a).after
  {
    match PushTarget(st, server, busid, serial, live)
    case None =>
    case Some((e, true)) => RestoreAloneIsAtomic(st, e, [], map[], a);
    case Some((e, false)) =>
      var moved := Entry(e.id, e.att.(busid := busid));
      RestoreAloneIsAtomic(st.(attachments := st.attachments.Put(e.id, moved.att)), moved, [], map[], a);
  }

  /**
   * And it detaches the same port: once the command succeeds the kernel has lost that session and no other, and
   * without one to detach, or when the command fails, it is as it was.
   */
  lemma PushAloneDetachesTheSame(y: System, server: Id, busid: string, serial: string, detachOk: bool, a: Answers)
    ensures
      var port := Pushed(y.st, server, busid, serial, LiveOf(y.kernel), a).detached;
      var kernel := KernelBefore(y, StartPush(server, busid, serial, detachOk, a));
      && PushDetaches(y, server, busid, serial) == port
      && if port.Some? && detachOk then
           port.value in y.kernel && kernel.Keys == y.kernel.Keys - {port.value} && forall p :: p in kernel ==> kernel[p] == y.kernel[p]
         else kernel == y.kernel
  {
  }

  /** So is a user's uninterrupted group attach, with every refusal. */
  lemma GroupAttachAloneIsAtomic(st: State, g: Id, a: Answers)
    ensures
      var s := GroupBegin(st, g, [], map[], None, a.now);
      Finish(s.st, s.task, a) == GroupAttach(st, g, a).0
  {
    var s := GroupBegin(st, g, [], map[], None, a.now);
    if s.task.Querying? { QueryingFinishes(st, s.task, a); }
  }

  /** And a user's uninterrupted direct attach, which starts by looking the server up. */
  lemma DirectAttachAloneIsAtomic(st: State, server: Id, busid: string, o: Options, a: Answers)
    ensures Finish(st, if server in st.servers then Fetching(server, busid, o) else Done(), a) == DirectAttach(st, server, busid, o, a).0
  {
  }
}
