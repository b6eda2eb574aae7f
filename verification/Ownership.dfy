/** Which attachment a kernel session belongs to, under every interleaving of the client's coroutines. */
module Ownership {
  import opened Text
  import opened OrderedDict
  import opened Devices
  import opened UsbipClient
  import opened Backoff
  import opened ClientState
  import opened Registry
  import opened Interleaving

  // ------------------------------------------------------------------ claims

  ghost predicate Carries(r: Record, c: Claim) {
    r.port == c.port && r.local == Some(c.local)
  }

  ghost predicate InEntry(e: Entry, c: Claim) {
    e.id == c.id && Carries(e.att, c)
  }

  ghost predicate InStore(st: State, c: Claim) {
    c.id in st.attachments.entries && Carries(st.attachments.entries[c.id], c)
  }

  ghost predicate InRest(rest: seq<Entry>, c: Claim) {
    exists e :: e in rest && InEntry(e, c)
  }

  /** A suspended coroutine's snapshot records the session. */
  ghost predicate InTask(t: Task, c: Claim) {
    match t
    case Walking(rest, _) => InRest(rest, c)
    case Querying(rest, _, _, _, _, _, back) => InRest(rest, c) || (back.Some? && InEntry(back.value, c))
    case Relocating(rest, _, e, _) => InRest(rest, c) || InEntry(e, c)
    case _ => false
  }

  /** The session is recorded under that id, in the store or in a snapshot that may yet be written back. */
  ghost predicate Recorded(y: System, c: Claim) {
    InStore(y.st, c) || exists i :: 0 <= i < |y.tasks| && InTask(y.tasks[i], c)
  }

  /**
   * Each session is recorded under one attachment id only, and a session on a port that a record names by port
   * and local busid was made for that record's attachment.
   */
  ghost predicate Owned(y: System) {
    && y.st.attachments.Valid()
    && (forall c, d :: Recorded(y, c) && Recorded(y, d) && c.port == d.port && c.local == d.local ==> c.id == d.id)
    && (forall c :: Recorded(y, c) && c.port in y.kernel && y.kernel[c.port].local == c.local ==> y.kernel[c.port].owner == Some(c.id))
  }

  // ------------------------------------------------- what the store records after each change

  lemma NodeUpdateClaims(st: State, id: Id, node: Option<StableNode>, c: Claim)
    ensures InStore(NodeUpdated(st, id, node), c) ==> InStore(st, c)
    ensures st.attachments.Valid() ==> NodeUpdated(st, id, node).attachments.Valid()
  {
    NodeUpdateFrame(st, id, node);
  }

  lemma FailureClaims(st: State, id: Id, now: int, c: Claim)
    ensures InStore(FailureNoted(st, id, now), c) ==> InStore(st, c)
    ensures st.attachments.Valid() ==> FailureNoted(st, id, now).attachments.Valid()
  {
  }

  lemma PutClaims(st: State, e: Entry, c: Claim)
    ensures InStore(st.(attachments := st.attachments.Put(e.id, e.att)), c) ==> InStore(st, c) || InEntry(e, c)
  {
  }

  lemma DirectBackClaims(st: State, id: Id, att: Record, busid: string, got: Outcome, a: Answers, c: Claim)
    requires got.Attached?
    ensures InStore(DirectBack(st, id, att, busid, got, a), c) ==> InStore(st, c) || c == Claim(id, got.port, got.local)
    ensures st.attachments.Valid() ==> DirectBack(st, id, att, busid, got, a).attachments.Valid()
  {
    DirectBackStored(st, id, att, busid, got, a);
    var t := st.(attachments := st.attachments.Put(id, BackRecord(att, busid, got, a.now)), trace := st.trace + [Reattached(id, a.now)]);
    NodeUpdateClaims(t, id, a.node, c);
  }

  lemma GroupPutClaims(st: State, g: Id, group: Group, cand: Candidate, k: nat, serial: string, a: Answers, c: Claim)
    requires a.attach(k).Attached?
    ensures InStore(GroupPut(st, g, group, cand, k, serial, a), c) ==>
      InStore(st, c) || c == Claim(a.newId, a.attach(k).port, a.attach(k).local)
    ensures st.attachments.Valid() ==> GroupPut(st, g, group, cand, k, serial, a).attachments.Valid()
  {
    var put := st.(attachments := st.attachments.Put(a.newId, GroupRecord(g, group, cand, serial, a.attach(k), a.now)),
                   used := st.used + {a.newId}, trace := st.trace + [GroupAttached(a.newId, g, k)]);
    NodeUpdateClaims(put, a.newId, a.node, c);
  }

  lemma DirectStoredClaims(st: State, server: Id, d: Device, o: Options, got: Outcome, a: Answers, c: Claim)
    requires got.Attached?
    ensures InStore(DirectStored(st, server, d, o, got, a), c) ==> InStore(st, c) || c == Claim(a.newId, got.port, got.local)
    ensures st.attachments.Valid() ==> DirectStored(st, server, d, o, got, a).attachments.Valid()
  {
    var put := st.(attachments := st.attachments.Put(a.newId, DirectRecord(server, d, o, got, a.now)), used := st.used + {a.newId});
    NodeUpdateClaims(put, a.newId, a.node, c);
  }

  lemma DirectFailedClaims(st: State, id: Id, att: Record, busid: string, error: string, a: Answers, c: Claim)
    ensures InStore(DirectFailed(st, id, att, busid, error, a), c) ==> InStore(st, c)
    ensures st.attachments.Valid() ==> DirectFailed(st, id, att, busid, error, a).attachments.Valid()
  {
    FailureClaims(st, id, a.now, c);
  }

  // ------------------------------------------------------------ segments

  /** After a segment, a recorded session was recorded before it, or is the one it was granted. */
  ghost predicate NothingNew(st: State, t: Task, g: Segment, c: Claim) {
    && (st.attachments.Valid() ==> g.st.attachments.Valid())
    && (InStore(g.st, c) || InTask(g.task, c) ==> InStore(st, c) || InTask(t, c) || g.grant == Some(c))
  }

  /** The coroutine as it holds an entry it is about to restore. */
  function Holding(e: Entry, rest: seq<Entry>, live: map<Port, string>): Task {
    Relocating(rest, live, e, "")
  }

  lemma GroupFailedClaims(st: State, rest: seq<Entry>, live: map<Port, string>, back: Option<Entry>, now: int, t: Task, c: Claim)
    requires InRest(rest, c) || (back.Some? && InEntry(back.value, c)) ==> InTask(t, c)
    ensures NothingNew(st, t, GroupFailed(st, rest, live, back, now), c)
  {
    if back.Some? {
      PutClaims(st, back.value, c);
      FailureClaims(st.(attachments := st.attachments.Put(back.value.id, back.value.att)), back.value.id, now, c);
    }
  }

  lemma GroupBeginClaims(
      st: State, g: Id, rest: seq<Entry>, live: map<Port, string>, back: Option<Entry>, now: int, t: Task, c: Claim)
    requires InRest(rest, c) || (back.Some? && InEntry(back.value, c)) ==> InTask(t, c)
    ensures NothingNew(st, t, GroupBegin(st, g, rest, live, back, now), c)
  {
    GroupFailedClaims(st, rest, live, back, now, t, c);
  }

  lemma GroupResumeClaims(st: State, t: Task, a: Answers, c: Claim)
    requires t.Querying?
    ensures NothingNew(st, t, GroupResume(st, t, a), c)
  {
    if t.k >= |t.group.candidates| {
      GroupFailedClaims(st, t.rest, t.live, t.back, a.now, t, c);
    } else {
      var cand := t.group.candidates[t.k];
      if Qualifies(t.servers, cand, t.k, a) {
        GroupPutClaims(st, t.g, t.group, cand, t.k, CandidateSerial(a.fetch(t.k), cand.busid).value, a, c);
      }
    }
  }

  lemma RestoreBeginClaims(st: State, e: Entry, rest: seq<Entry>, live: map<Port, string>, a: Answers, t: Task, c: Claim)
    requires InRest(rest, c) || InEntry(e, c) ==> InTask(t, c)
    ensures NothingNew(st, t, RestoreBegin(st, e, rest, live, a), c)
  {
    var popped := st.(attachments := st.attachments.Pop(e.id));
    if e.att.autoFailover {
      if e.att.group.Some? {
        GroupBeginClaims(popped, e.att.group.value, rest, live, Some(e), a.now, t, c);
      } else {
        DirectBeginClaims(st, e, rest, live, a, t, c);
      }
    }
  }

  lemma DirectBeginClaims(st: State, e: Entry, rest: seq<Entry>, live: map<Port, string>, a: Answers, t: Task, c: Claim)
    requires e.att.autoFailover && e.att.group.None?
    requires InRest(rest, c) || InEntry(e, c) ==> InTask(t, c)
    ensures NothingNew(st, t, RestoreBegin(st, e, rest, live, a), c)
  {
    if e.att.server !in st.servers {
      FailureClaims(st, e.id, a.now, c);
    } else if a.attach(0).Attached? {
      DirectBackClaims(st, e.id, e.att, e.att.busid, a.attach(0), a, c);
    }
  }

  lemma RelocateResumeClaims(st: State, t: Task, a: Answers, c: Claim)
    requires t.Relocating?
    ensures NothingNew(st, t, RelocateResume(st, t, a), c)
  {
    var id, att := t.entry.id, t.entry.att;
    match FindRelocated(a.fetch(0), att.serial, att.busid)
    case None => DirectFailedClaims(st, id, att, att.busid, t.error, a, c);
    case Some(elsewhere) =>
      match a.attach(1)
      case CommandError(error2) => DirectFailedClaims(st, id, att, elsewhere, error2, a, c);
      case Attached(_, _) => DirectBackClaims(st, id, att, elsewhere, a.attach(1), a, c);
  }

  lemma WalkClaims(st: State, t: Task, a: Answers, c: Claim)
    requires t.Walking?
    ensures NothingNew(st, t, Walk(st, t, a), c)
  {
    if t.rest != [] {
      var e, rest := t.rest[0], t.rest[1..];
      assert t.rest == [e] + rest;
      assert InRest(rest, c) || InEntry(e, c) ==> InTask(t, c);
      RestoreBeginClaims(st, e, rest, t.live, a, t, c);
    }
  }

  lemma DirectFinishClaims(st: State, server: Id, d: Device, o: Options, a: Answers, t: Task, c: Claim)
    ensures NothingNew(st, t, DirectFinish(st, server, d, o, a), c)
  {
    if a.attach(0).Attached? {
      DirectStoredClaims(st, server, d, o, a.attach(0), a, c);
    }
  }

  lemma ResumeClaims(st: State, t: Task, a: Answers, c: Claim)
    ensures NothingNew(st, t, Resume(st, t, a), c)
  {
    match t
    case Walking(_, _) => WalkClaims(st, t, a, c);
    case Querying(_, _, _, _, _, _, _) => GroupResumeClaims(st, t, a, c);
    case Relocating(_, _, _, _) => RelocateResumeClaims(st, t, a, c);
    case Fetching(server, busid, o) =>
      if a.fetch(0).Listed? && FirstDevice(a.fetch(0).scan, AtBusid(busid)).Some? {
        DirectFinishClaims(st, server, FirstDevice(a.fetch(0).scan, AtBusid(busid)).value, o, a, t, c);
      }
    case Sharing(server, d, o) => DirectFinishClaims(st, server, d, o, a, t, c);
  }

  lemma {:induction false} SnapshotClaims(st: State, order: seq<Id>, c: Claim)
    requires InRest(Snapshot(st.attachments, order), c)
    ensures InStore(st, c)
  {
    var e :| e in Snapshot(st.attachments, order) && InEntry(e, c);
    var id, init := order[|order| - 1], order[..|order| - 1];
    if e in Snapshot(st.attachments, init) {
      SnapshotClaims(st, init, c);
    }
  }

  lemma PushClaims(st: State, server: Id, busid: string, serial: string, live: map<Port, string>, a: Answers, c: Claim)
    ensures NothingNew(st, Done(), PushBegin(st, server, busid, serial, live, a), c)
  {
    match PushTarget(st, server, busid, serial, live)
    case None =>
    case Some((e, true)) =>
      RestoreBeginClaims(st, e, [], map[], a, Holding(e, [], map[]), c);
    case Some((e, false)) =>
      var moved := Entry(e.id, e.att.(busid := busid));
      PutClaims(st, moved, c);
      RestoreBeginClaims(st.(attachments := st.attachments.Put(e.id, moved.att)), moved, [], map[], a, Holding(moved, [], map[]), c);
      assert InEntry(moved, c) ==> InEntry(e, c);
  }

  // ---------------------------------------------------------------- steps

  lemma ServeClaims(st: State, e: Event, c: Claim)
    requires st.attachments.Valid()
    requires !e.EDirectAttach? && !e.EGroupAttach? && !e.ETick? && !e.EPush? && !e.EStart?
    ensures InStore(After(st, e), c) ==> InStore(st, c)
    ensures After(st, e).attachments.Valid()
  {
  }

  lemma {:induction false} RefreshClaims(st: State, order: seq<Id>, live: map<Port, string>, nodes: Id -> Option<StableNode>, c: Claim)
    ensures InStore(NodesRefreshed(st, order, live, nodes), c) ==> InStore(st, c)
    ensures st.attachments.Valid() ==> NodesRefreshed(st, order, live, nodes).attachments.Valid()
  {
    if order != [] {
      var init, id := order[..|order| - 1], order[|order| - 1];
      RefreshClaims(st, init, live, nodes, c);
      NodeUpdateClaims(NodesRefreshed(st, init, live, nodes), id, nodes(id), c);
    }
  }

  ghost function GrantOf(y: System, x: Step): Option<Claim>
    requires Enabled(y, x)
  {
    if SegmentOf(y, x).Some? then SegmentOf(y, x).value.grant else None
  }

  /** The coroutine a step runs, as it was before the step. */
  ghost function TaskOf(y: System, x: Step): Task
    requires Enabled(y, x)
  {
    if x.ResumeTask? then y.tasks[x.i] else Done()
  }

  lemma SegmentClaims(y: System, x: Step, c: Claim)
    requires Enabled(y, x) && SegmentOf(y, x).Some?
    ensures NothingNew(y.st, TaskOf(y, x), SegmentOf(y, x).value, c)
  {
    match x
    case StartTick =>
      if InRest(Snapshot(y.st.attachments, y.st.attachments.order), c) { SnapshotClaims(y.st, y.st.attachments.order, c); }
    case StartPush(server, busid, serial, _, a) => PushClaims(y.st, server, busid, serial, LiveOf(y.kernel), a, c);
    case StartGroup(g, a) => GroupBeginClaims(y.st, g, [], map[], None, a.now, Done(), c);
    case StartDirect(_, _, _) =>
    case ResumeTask(i, a) => ResumeClaims(y.st, y.tasks[i], a, c);
  }

  /** No step records a session under a new id, but for the one it has just been granted. */
  lemma StepRecords(y: System, x: Step, c: Claim)
    requires Enabled(y, x) && y.st.attachments.Valid()
    ensures Exec(y, x).st.attachments.Valid()
    ensures Recorded(Exec(y, x), c) ==> Recorded(y, c) || GrantOf(y, x) == Some(c)
  {
    var z := Exec(y, x);
    if SegmentOf(y, x).Some? {
      var g := SegmentOf(y, x).value;
      SegmentClaims(y, x, c);
      assert !InTask(Done(), c);
      if Recorded(z, c) && !InStore(z.st, c) {
        var i :| 0 <= i < |z.tasks| && InTask(z.tasks[i], c);
        assert z.tasks[i] == g.task || (i < |y.tasks| && z.tasks[i] == y.tasks[i]);
      }
    } else {
      match x
      case Serve(e, _) => ServeClaims(y.st, e, c);
      case Restart(kept, nodes) =>
        var begun := y.st.(startup := {}, trace := y.st.trace + [ProcessStarted]);
        RefreshClaims(begun, y.st.attachments.order, LiveOf(KernelBefore(y, x)), nodes, c);
      case Drop(_) =>
      case Appear(_, _) =>
    }
  }

  /**
   * The environment's part: the pair a step is granted is not recorded, afterwards, under any other id, and a late
   * session does not take a pair that is recorded at all.
   */
  ghost predicate NotReissued(y: System, x: Step)
    requires Enabled(y, x) && y.st.attachments.Valid()
  {
    && (GrantOf(y, x).Some? ==>
          var g := GrantOf(y, x).value;
          forall c :: Recorded(Exec(y, x), c) && c.port == g.port && c.local == g.local ==> c.id == g.id)
    && (x.Appear? ==> forall c :: Recorded(y, c) && c.port == x.port ==> c.local != x.local)
  }

  lemma KernelOnlyLoses(y: System, x: Step)
    requires Enabled(y, x)
    ensures forall p :: p in KernelBefore(y, x) ==> p in y.kernel && KernelBefore(y, x)[p] == y.kernel[p]
  {
  }

  /**
   * One step keeps ownership exactly when the kernel does not hand out a pair that is still recorded under
   * another id. Stale snapshots written back, resurrected or overwritten records never break it.
   */
  lemma OwnershipNeedsOnlyTheKernel(y: System, x: Step)
    requires Owned(y) && Enabled(y, x)
    ensures Owned(Exec(y, x)) <==> NotReissued(y, x)
  {
    if x.Appear? {
      LateSessionNeedsFreePair(y, x);
      return;
    }
    forall c
      ensures Exec(y, x).st.attachments.Valid()
      ensures Recorded(Exec(y, x), c) ==> Recorded(y, c) || GrantOf(y, x) == Some(c)
    {
      StepRecords(y, x, c);
    }
    StepRecords(y, x, Claim("", 0, ""));
    KernelOnlyLoses(y, x);
    ExecKernel(y, x);
    OwnershipCarriesOver(y, Exec(y, x), KernelBefore(y, x), GrantOf(y, x));
  }

  lemma LateSessionNeedsFreePair(y: System, x: Step)
    requires Owned(y) && x.Appear?
    ensures Owned(Exec(y, x)) <==> NotReissued(y, x)
  {
    var z := Exec(y, x);
    forall c
      ensures Recorded(z, c) <==> Recorded(y, c)
    {
      assert InStore(z.st, c) <==> InStore(y.st, c);
    }
    if exists c :: Recorded(y, c) && c.port == x.port && c.local == x.local {
      var c :| Recorded(y, c) && c.port == x.port && c.local == x.local;
      assert Recorded(z, c) && z.kernel[c.port] == Session(x.local, None);
    }
  }

  lemma ExecKernel(y: System, x: Step)
    requires Enabled(y, x) && y.st.attachments.Valid() && !x.Appear?
    ensures Exec(y, x).kernel == Granted(KernelBefore(y, x), GrantOf(y, x))
  {
  }

  lemma OwnershipCarriesOver(y: System, z: System, kernel: Kernel, grant: Option<Claim>)
    requires Owned(y) && z.st.attachments.Valid()
    requires forall c :: Recorded(z, c) ==> Recorded(y, c) || grant == Some(c)
    requires forall p :: p in kernel ==> p in y.kernel && kernel[p] == y.kernel[p]
    requires z.kernel == Granted(kernel, grant)
    ensures Owned(z) <==> (grant.Some? ==>
      forall c :: Recorded(z, c) && c.port == grant.value.port && c.local == grant.value.local ==> c.id == grant.value.id)
  {
  }

  /** A kernel that never hands out a pair some record or snapshot stores under another id meets that condition. */
  lemma UnrecordedPairIsFair(y: System, x: Step)
    requires Owned(y) && Enabled(y, x)
    requires GrantOf(y, x).Some? ==>
      forall c :: Recorded(y, c) && c.port == GrantOf(y, x).value.port && c.local == GrantOf(y, x).value.local ==>
        c.id == GrantOf(y, x).value.id
    requires x.Appear? ==> forall c :: Recorded(y, c) && c.port == x.port ==> c.local != x.local
    ensures NotReissued(y, x)
  {
    if GrantOf(y, x).Some? {
      var g := GrantOf(y, x).value;
      forall c | Recorded(Exec(y, x), c) && c.port == g.port && c.local == g.local
        ensures c.id == g.id
      {
        StepRecords(y, x, c);
      }
    }
  }

  /** A new installation starts such a run, whatever sessions the kernel already has. */
  lemma FirstSystemIsOwned(kernel: Kernel, st: State)
    requires st.attachments == Dict([], map[])
    ensures Owned(System(st, kernel, []))
  {
  }

  // ----------------------------------------------------------------- runs

  ghost function Fair(): (System, Step) -> bool {
    (y: System, x: Step) => y.st.attachments.Valid() && Enabled(y, x) && NotReissued(y, x)
  }

  ghost function OwnedAt(): System -> bool {
    (y: System) => Owned(y)
  }

  /** Under every interleaving, each session is only ever recorded under one attachment id. */
  lemma EveryInterleavingKeepsOwnership(y: System, xs: seq<Step>)
    requires Owned(y) && RunOf(y, xs, Fair())
    ensures Owned(AfterSteps(y, xs))
  {
    FairStepsKeepOwnership();
    RunKeeps(y, xs, Fair(), OwnedAt());
  }

  lemma FairStepsKeepOwnership()
    ensures forall u, x :: OwnedAt()(u) && u.st.attachments.Valid() && Enabled(u, x) && Fair()(u, x) ==> OwnedAt()(Exec(u, x))
  {
    forall u, x | OwnedAt()(u) && u.st.attachments.Valid() && Enabled(u, x) && Fair()(u, x)
      ensures OwnedAt()(Exec(u, x))
    {
      OwnershipNeedsOnlyTheKernel(u, x);
    }
  }

  /**
   * The liveness test, on a record with a stored local busid and the port map of the same moment: it is true
   * exactly when the port carries a session made for this very attachment, with the recorded local busid.
   */
  lemma LivenessIsExact(y: System, id: Id)
    requires Owned(y) && id in y.st.attachments.entries && y.st.attachments.entries[id].local.Some?
    ensures
      var att := y.st.attachments.entries[id];
      IsLive(att, LiveOf(y.kernel)) <==> att.port in y.kernel && y.kernel[att.port] == Session(att.local.value, Some(id))
  {
    var att := y.st.attachments.entries[id];
    var c := Claim(id, att.port, att.local.value);
    assert InStore(y.st, c);
    assert Recorded(y, c);
  }

  /**
   * A server push never detaches a session of another attachment: the port it detaches carries the session of
   * the record it was found by, and no other record, stored or in a snapshot, names that session.
   */
  lemma PushDetachesItsOwn(y: System, server: Id, busid: string, serial: string)
    requires Owned(y) && PushDetaches(y, server, busid, serial).Some?
    requires PushTarget(y.st, server, busid, serial, LiveOf(y.kernel)).value.0.att.local.Some?
    ensures
      var port := PushDetaches(y, server, busid, serial).value;
      var e := PushTarget(y.st, server, busid, serial, LiveOf(y.kernel)).value.0;
      && e.id in y.st.attachments.entries && y.st.attachments.entries[e.id] == e.att
      && e.att.server == server && e.att.busid == busid
      && port in y.kernel && y.kernel[port] == Session(e.att.local.value, Some(e.id))
      && forall c :: Recorded(y, c) && c.port == port && c.local == y.kernel[port].local ==> c.id == e.id
  {
    var e := PushTarget(y.st, server, busid, serial, LiveOf(y.kernel)).value.0;
    LivenessIsExact(y, e.id);
    var own := Claim(e.id, e.att.port, e.att.local.value);
    assert InStore(y.st, own);
    assert Recorded(y, own);
  }
}
