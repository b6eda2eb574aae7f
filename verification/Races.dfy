/** Runs of interleaved steps in which a stale snapshot breaks what whole handlers keep. */
module Races {
  import opened Text
  import opened OrderedDict
  import opened Devices
  import opened UsbipClient
  import opened Backoff
  import opened ClientState
  import opened Registry
  import opened Interleaving
  import opened Interference
  import opened Sequential

  /** The moves `xs` lead from `y` to `z`. */
  ghost predicate Path<S, X>(next: (S, X) -> Option<S>, y: S, xs: seq<X>, z: S)
    decreases |xs|
  {
    if xs == [] then y == z else next(y, xs[0]).Some? && Path(next, next(y, xs[0]).value, xs[1..], z)
  }

  ghost function Next(): (System, Step) -> Option<System> {
    (y: System, x: Step) => if y.st.attachments.Valid() && Enabled(y, x) then Some(Exec(y, x)) else None
  }

  ghost predicate Leads(y: System, xs: seq<Step>, z: System) {
    Path(Next(), y, xs, z)
  }

  /** The answers of the run below: the device is idle, or already in use, and attaching gives `got`. */
  function DeviceAnswers(now: int, newId: Id, busid: string, status: Status, got: Outcome): Answers {
    Answers(now, 0, newId, (k: nat) => Listed([Device(busid, "", status, "")]), (k: nat) => got, true, None)
  }

  lemma OnlyIdleQualifies(servers: map<Id, Server>, c: Candidate, newId: Id, got: Outcome, now: int)
    requires c.server in servers && got.Attached?
    ensures Qualifies(servers, c, 0, DeviceAnswers(now, newId, c.busid, SharedIdle, got))
    ensures !Qualifies(servers, c, 0, DeviceAnswers(now, newId, c.busid, SharedInUse, got))
  {
    assert FirstDevice([Device(c.busid, "", SharedIdle, "")], AtBusid(c.busid)).Some?;
  }

  lemma {:induction false} PathFurther<S, X>(next: (S, X) -> Option<S>, y: S, xs: seq<X>, m: S, ys: seq<X>, z: S)
    requires Path(next, y, xs, m) && Path(next, m, ys, z)
    ensures Path(next, y, xs + ys, z)
    decreases |xs|
  {
    if xs == [] {
      assert xs + ys == ys;
    } else {
      PathFurther(next, next(y, xs[0]).value, xs[1..], m, ys, z);
      assert (xs + ys)[1..] == xs[1..] + ys;
    }
  }

  lemma TwoSteps(y: System, x1: Step, m: System, x2: Step, z: System)
    requires y.st.attachments.Valid() && Enabled(y, x1) && m == Exec(y, x1)
    requires m.st.attachments.Valid() && Enabled(m, x2) && z == Exec(m, x2)
    ensures Leads(y, [x1, x2], z)
  {
    assert [x1, x2][1..] == [x2] && [x2][1..] == [];
  }

  /** A tick reads the one record, pops it and suspends at the device list of the group's candidate. */
  lemma TickPopsAndWaits(y: System, id: Id, att: Record, g: Id, group: Group, a: Answers) returns (z: System)
    requires y.st.attachments.Valid() && y.tasks == [] && y.st.attachments.order == [id]
    requires y.st.attachments.entries == map[id := att] && att.group == Some(g) && att.autoFailover
    requires att.nextRetry.None? && !IsLive(att, LiveOf(y.kernel)) && g in y.st.groups && y.st.groups[g] == group
    ensures Leads(y, [StartTick, ResumeTask(0, a)], z)
    ensures z == System(
      y.st.(attachments := Dict([], map[])), y.kernel,
      [Querying([], LiveOf(y.kernel), g, group, y.st.servers, 0, Some(Entry(id, att)))])
  {
    var m := Exec(y, StartTick);
    SnapshotLists(y.st.attachments, [id]);
    assert Snapshot(y.st.attachments, [id]) == [Entry(id, att)];
    assert m.tasks == [Walking([Entry(id, att)], LiveOf(y.kernel))];
    assert [Entry(id, att)][1..] == [];
    assert y.st.attachments.Pop(id) == Dict([], map[]);
    z := Exec(m, ResumeTask(0, a));
    TwoSteps(y, StartTick, m, ResumeTask(0, a), z);
  }

  /** Meanwhile a user attaches the group, of which no record is left. */
  lemma UserAttaches(y: System, g: Id, group: Group, c: Candidate, a: Answers) returns (z: System)
    requires y.st.attachments == Dict([], map[]) && |y.tasks| == 1 && g in y.st.groups && y.st.groups[g] == group
    requires group.candidates == [c] && Qualifies(y.st.servers, c, 0, a)
    ensures Leads(y, [StartGroup(g, a), ResumeTask(1, a)], z)
    ensures z.st.attachments.Valid() && |z.tasks| == 2 && z.tasks[0] == y.tasks[0]
    ensures a.newId in z.st.attachments.entries && z.st.attachments.entries[a.newId].group == Some(g)
  {
    var m := Exec(y, StartGroup(g, a));
    assert m.tasks[1] == Querying([], map[], g, group, y.st.servers, 0, None);
    GroupPutRecord(y.st, g, group, c, CandidateSerial(a.fetch(0), c.busid).value, a);
    z := Exec(m, ResumeTask(1, a));
    TwoSteps(y, StartGroup(g, a), m, ResumeTask(1, a), z);
  }

  /** The tick then finds no candidate free and puts its old record back. */
  lemma TickPutsBack(y: System, t: Task, e: Entry, c: Candidate, a: Answers) returns (z: System)
    requires y.st.attachments.Valid() && |y.tasks| > 0 && y.tasks[0] == t
    requires t.Querying? && t.k == 0 && t.group.candidates == [c] && t.back == Some(e) && !Qualifies(t.servers, c, 0, a)
    ensures Leads(y, [ResumeTask(0, a), ResumeTask(0, a)], z)
    ensures z.st.attachments.entries == y.st.attachments.entries[e.id := Bumped(e.att, a.now)] && z.st.file == y.st.file
  {
    var m := Exec(y, ResumeTask(0, a));
    assert m.tasks[0] == t.(k := 1);
    assert y.st.attachments.entries[e.id := e.att][e.id := Bumped(e.att, a.now)] == y.st.attachments.entries[e.id := Bumped(e.att, a.now)];
    z := Exec(m, ResumeTask(0, a));
    TwoSteps(y, ResumeTask(0, a), m, ResumeTask(0, a), z);
  }

  /**
   * One record per group does not survive interleaving. While a tick that has popped the group's dead record
   * awaits the device list, a user attaches the group; the tick then finds the device in use and puts the old
   * record back. Six steps from any state with one such record and one candidate, and the group has two.
   */
  lemma TwoRecordsForOneGroup(y: System, id: Id, g: Id, newId: Id, got: Outcome, now: int)
    returns (xs: seq<Step>, z: System)
    requires Sound(y.st) && y.tasks == [] && y.st.attachments.order == [id] && newId !in y.st.used && got.Attached?
    requires
      var att := y.st.attachments.entries[id];
      att.group == Some(g) && att.autoFailover && att.nextRetry.None? && !IsLive(att, LiveOf(y.kernel))
    requires |y.st.groups[g].candidates| == 1 && y.st.groups[g].candidates[0].server in y.st.servers
    ensures Leads(y, xs, z) && |xs| == 6
    ensures id != newId && id in z.st.attachments.entries && newId in z.st.attachments.entries
    ensures z.st.attachments.entries[id].group == Some(g) && z.st.attachments.entries[newId].group == Some(g)
    ensures !OnePerGroup(z.st.attachments)
  {
    var att, group := y.st.attachments.entries[id], y.st.groups[g];
    var c := group.candidates[0];
    var idle := DeviceAnswers(now, newId, c.busid, SharedIdle, got);
    var busy := DeviceAnswers(now, newId, c.busid, SharedInUse, got);
    OnlyIdleQualifies(y.st.servers, c, newId, got, now);
    assert y.st.attachments.entries == map[id := att];
    var m := TickPopsAndWaits(y, id, att, g, group, busy);
    var n := UserAttaches(m, g, group, c, idle);
    z := TickPutsBack(n, m.tasks[0], Entry(id, att), c, busy);
    PathFurther(Next(), m, [StartGroup(g, idle), ResumeTask(1, idle)], n, [ResumeTask(0, busy), ResumeTask(0, busy)], z);
    xs := [StartGroup(g, idle), ResumeTask(1, idle)] + [ResumeTask(0, busy), ResumeTask(0, busy)];
    PathFurther(Next(), y, [StartTick, ResumeTask(0, busy)], m, xs, z);
    xs := [StartTick, ResumeTask(0, busy)] + xs;
  }

  lemma GroupPutRecord(st: State, g: Id, group: Group, c: Candidate, serial: string, a: Answers)
    requires a.attach(0).Attached?
    ensures
      var t := GroupPut(st, g, group, c, 0, serial, a);
      && t.attachments.entries.Keys == st.attachments.entries.Keys + {a.newId}
      && t.attachments.entries[a.newId].group == Some(g) && t.attachments.entries[a.newId].server == c.server
      && t.groups == st.groups && t.servers == st.servers
      && (st.attachments.Valid() ==> t.attachments.Valid())
  {
    var put := st.(attachments := st.attachments.Put(a.newId, GroupRecord(g, group, c, serial, a.attach(0), a.now)),
                   used := st.used + {a.newId}, trace := st.trace + [GroupAttached(a.newId, g, 0)]);
    NodeUpdateFrame(put, a.newId, a.node);
  }

  // ---------------------------------------------------------- a tick's stale entry

  /**
   * The same happens without a user: when a push has meanwhile reattached the group under a new id, the tick's entry
   * of it is stale. It pops nothing, the group attach refuses, and the old record is put back beside the new one.
   */
  lemma StaleEntryIsPutBack(st: State, e: Entry, newer: Id, rest: seq<Entry>, live: map<Port, string>, a: Answers)
    requires st.attachments.Valid() && e.att.autoFailover && e.att.group.Some? && e.id !in st.attachments.entries
    requires newer in st.attachments.entries && st.attachments.entries[newer].group == e.att.group
    ensures
      var g := RestoreBegin(st, e, rest, live, a);
      && g.put == Some(e) && !GroupIsFree(st, e)
      && e.id in g.st.attachments.entries && newer in g.st.attachments.entries
      && g.st.attachments.entries[e.id].group == g.st.attachments.entries[newer].group == e.att.group
  {
    var g := e.att.group.value;
    var popped := st.(attachments := st.attachments.Pop(e.id));
    StillActive(popped.attachments, g, newer);
    assert RestoreBegin(st, e, rest, live, a) == GroupFailed(popped, rest, live, Some(e), a.now);
    RestoreBeginWrites(st, e, rest, live, a);
  }

  lemma StillActive(d: Dict<Record>, g: Id, id: Id)
    requires d.Valid() && id in d.entries && d.entries[id].group == Some(g)
    ensures ActiveFor(d, g).Some?
  {
    if ActiveFor(d, g).None? { NoneActive(d, g); }
  }

  // ------------------------------------------------- a server deleted, a record detached

  /** A server with no attachment is deleted while a direct attach to it awaits the device list. */
  lemma RecordOfDeletedServer(y: System, server: Id, busid: string, o: Options, kept: set<Port>, a: Answers, d: Device)
    returns (xs: seq<Step>, z: System)
    requires y.st.attachments.Valid() && y.tasks == [] && server in y.st.servers && !ServerInUse(y.st.attachments, server)
    requires d.busid == busid && d.status == SharedIdle && a.fetch(0) == Listed([d]) && a.attach(0).Attached?
    ensures Leads(y, xs, z) && |xs| == 3
    ensures a.newId in z.st.attachments.entries && z.st.attachments.entries[a.newId].server == server && server !in z.st.servers
    ensures !ServersExist(z.st)
  {
    xs := [StartDirect(server, busid, o), Serve(EServerDelete(server), kept), ResumeTask(0, a)];
    var m := Exec(y, xs[0]);
    assert m == System(y.st, y.kernel, [Fetching(server, busid, o)]);
    var n := Exec(m, xs[1]);
    ServerGoes(m, server, kept);
    z := Exec(n, xs[2]);
    FetchedAttaches(n.st, Fetching(server, busid, o), d, a);
    ThreeSteps(y, xs[0], m, xs[1], n, xs[2], z);
  }

  lemma FetchedAttaches(st: State, t: Task, d: Device, a: Answers)
    requires t.Fetching? && d.busid == t.busid && d.status == SharedIdle && a.fetch(0) == Listed([d]) && a.attach(0).Attached?
    ensures
      var g := Resume(st, t, a);
      && g.st.servers == st.servers && a.newId in g.st.attachments.entries
      && g.st.attachments.entries[a.newId].server == t.server
  {
    assert FirstDevice([d], AtBusid(t.busid)) == Some(d);
    var u := st.(attachments := st.attachments.Put(a.newId, DirectRecord(t.server, d, t.options, a.attach(0), a.now)), used := st.used + {a.newId});
    NodeUpdateFrame(u, a.newId, a.node);
  }

  lemma ThreeSteps(y: System, x1: Step, m: System, x2: Step, n: System, x3: Step, z: System)
    requires y.st.attachments.Valid() && Enabled(y, x1) && m == Exec(y, x1)
    requires m.st.attachments.Valid() && Enabled(m, x2) && n == Exec(m, x2)
    requires n.st.attachments.Valid() && Enabled(n, x3) && z == Exec(n, x3)
    ensures Leads(y, [x1, x2, x3], z)
  {
    TwoSteps(m, x2, n, x3, z);
    assert [x1, x2, x3][1..] == [x2, x3];
  }

  /**
   * A user detaches a dead direct attachment while a tick that was refused it awaits the device list. The search then
   * succeeds, and the record is back, with a session that the user has just given up.
   */
  lemma DetachedRecordReturns(y: System, id: Id, att: Record, kept: set<Port>, refused: Answers, found: Answers, elsewhere: string)
    returns (xs: seq<Step>, z: System)
    requires y.st.attachments == Dict([id], map[id := att]) && y.tasks == []
    requires att.autoFailover && att.group.None? && att.server in y.st.servers && att.nextRetry.None? && !IsLive(att, LiveOf(y.kernel))
    requires refused.attach(0).CommandError?
    requires FindRelocated(found.fetch(0), att.serial, att.busid) == Some(elsewhere) && found.attach(1).Attached?
    ensures Leads(y, xs, z) && |xs| == 4 && xs[2] == Serve(EDetach(id, true), kept)
    ensures id in z.st.attachments.entries && z.st.attachments.entries[id].busid == elsewhere
    ensures found.attach(1).port in z.kernel && z.kernel[found.attach(1).port] == Session(found.attach(1).local, Some(id))
  {
    var error := refused.attach(0).output;
    var m := TickIsRefused(y, id, att, refused);
    var n := Exec(m, Serve(EDetach(id, true), kept));
    assert n.st.attachments.Valid() && n.tasks == m.tasks;
    z := Exec(n, ResumeTask(0, found));
    RelocatedIsBack(n.st, Relocating([], LiveOf(y.kernel), Entry(id, att), error), found, elsewhere);
    TwoSteps(m, Serve(EDetach(id, true), kept), n, ResumeTask(0, found), z);
    PathFurther(Next(), y, [StartTick, ResumeTask(0, refused)], m, [Serve(EDetach(id, true), kept), ResumeTask(0, found)], z);
    xs := [StartTick, ResumeTask(0, refused)] + [Serve(EDetach(id, true), kept), ResumeTask(0, found)];
  }

  lemma TickIsRefused(y: System, id: Id, att: Record, a: Answers) returns (z: System)
    requires y.st.attachments == Dict([id], map[id := att]) && y.tasks == []
    requires att.autoFailover && att.group.None? && att.server in y.st.servers && att.nextRetry.None? && !IsLive(att, LiveOf(y.kernel))
    requires a.attach(0).CommandError?
    ensures Leads(y, [StartTick, ResumeTask(0, a)], z)
    ensures z == System(y.st, y.kernel, [Relocating([], LiveOf(y.kernel), Entry(id, att), a.attach(0).output)])
  {
    var m := Exec(y, StartTick);
    SnapshotLists(y.st.attachments, [id]);
    assert Snapshot(y.st.attachments, [id]) == [Entry(id, att)];
    assert m.tasks == [Walking([Entry(id, att)], LiveOf(y.kernel))];
    z := Exec(m, ResumeTask(0, a));
    WalkIsRefused(y.st, Entry(id, att), LiveOf(y.kernel), a);
    TwoSteps(y, StartTick, m, ResumeTask(0, a), z);
  }

  lemma WalkIsRefused(st: State, e: Entry, live: map<Port, string>, a: Answers)
    requires e.att.autoFailover && e.att.group.None? && e.att.server in st.servers && e.att.nextRetry.None? && !IsLive(e.att, live)
    requires a.attach(0).CommandError?
    ensures Resume(st, Walking([e], live), a) == Segment(st, Relocating([], live, e, a.attach(0).output), None, None)
  {
    assert [e][1..] == [];
  }

  lemma RelocatedIsBack(st: State, t: Task, a: Answers, elsewhere: string)
    requires t.Relocating? && FindRelocated(a.fetch(0), t.entry.att.serial, t.entry.att.busid) == Some(elsewhere)
    requires a.attach(1).Attached?
    ensures
      var g := Resume(st, t, a);
      && t.entry.id in g.st.attachments.entries && g.st.attachments.entries[t.entry.id].busid == elsewhere
      && g.grant == Some(Claim(t.entry.id, a.attach(1).port, a.attach(1).local))
  {
    DirectBackStored(st, t.entry.id, t.entry.att, elsewhere, a.attach(1), a);
    var r := BackRecord(t.entry.att, elsewhere, a.attach(1), a.now);
    NodeUpdateFrame(
      st.(attachments := st.attachments.Put(t.entry.id, r), trace := st.trace + [Reattached(t.entry.id, a.now)]), t.entry.id, a.node);
  }

  /** A group without a record is deleted while a user's attach of it awaits the device list. */
  lemma RecordOfDeletedGroup(y: System, g: Id, kept: set<Port>, a: Answers) returns (xs: seq<Step>, z: System)
    requires y.st.attachments.Valid() && y.tasks == [] && g in y.st.groups && !GroupInUse(y.st.attachments, g)
    requires |y.st.groups[g].candidates| > 0 && Qualifies(y.st.servers, y.st.groups[g].candidates[0], 0, a)
    ensures Leads(y, xs, z) && |xs| == 3
    ensures a.newId in z.st.attachments.entries && z.st.attachments.entries[a.newId].group == Some(g) && g !in z.st.groups
    ensures !GroupsExist(z.st)
  {
    xs := [StartGroup(g, a), Serve(EGroupDelete(g), kept), ResumeTask(0, a)];
    var m := Exec(y, xs[0]);
    GroupAttachWaits(y, g, a);
    var n := Exec(m, xs[1]);
    assert n.st == y.st.(groups := y.st.groups - {g}) && n.tasks == m.tasks;
    z := Exec(n, xs[2]);
    QueriedAttaches(n.st, m.tasks[0], a);
    ThreeSteps(y, xs[0], m, xs[1], n, xs[2], z);
  }

  /** Likewise the server of its candidate: the coroutine goes by the servers it read before. */
  lemma GroupRecordOfDeletedServer(y: System, g: Id, kept: set<Port>, a: Answers) returns (xs: seq<Step>, z: System)
    requires y.st.attachments.Valid() && y.tasks == [] && g in y.st.groups && !GroupInUse(y.st.attachments, g)
    requires |y.st.groups[g].candidates| > 0 && Qualifies(y.st.servers, y.st.groups[g].candidates[0], 0, a)
    requires !ServerInUse(y.st.attachments, y.st.groups[g].candidates[0].server)
    ensures Leads(y, xs, z) && |xs| == 3
    ensures a.newId in z.st.attachments.entries && z.st.attachments.entries[a.newId].server !in z.st.servers
    ensures !ServersExist(z.st)
  {
    var group := y.st.groups[g];
    var server := group.candidates[0].server;
    xs := [StartGroup(g, a), Serve(EServerDelete(server), kept), ResumeTask(0, a)];
    var m := Exec(y, xs[0]);
    GroupAttachWaits(y, g, a);
    var n := Exec(m, xs[1]);
    ServerGoes(m, server, kept);
    z := Exec(n, xs[2]);
    QueriedAttaches(n.st, m.tasks[0], a);
    ThreeSteps(y, xs[0], m, xs[1], n, xs[2], z);
  }

  lemma GroupAttachWaits(y: System, g: Id, a: Answers)
    requires y.st.attachments.Valid() && y.tasks == [] && g in y.st.groups && !GroupInUse(y.st.attachments, g)
    ensures Exec(y, StartGroup(g, a)) == System(y.st, y.kernel, [Querying([], map[], g, y.st.groups[g], y.st.servers, 0, None)])
  {
    NotActive(y.st.attachments, g);
  }

  lemma ServerGoes(y: System, server: Id, kept: set<Port>)
    requires y.st.attachments.Valid() && !ServerInUse(y.st.attachments, server)
    ensures
      var z := Exec(y, Serve(EServerDelete(server), kept));
      z.st == y.st.(servers := y.st.servers - {server}) && z.tasks == y.tasks
  {
  }

  lemma QueriedAttaches(st: State, t: Task, a: Answers)
    requires t.Querying? && t.k == 0 && |t.group.candidates| > 0 && Qualifies(t.servers, t.group.candidates[0], 0, a)
    ensures
      var u := Resume(st, t, a).st;
      && u.groups == st.groups && u.servers == st.servers && a.newId in u.attachments.entries
      && u.attachments.entries[a.newId].group == Some(t.g) && u.attachments.entries[a.newId].server == t.group.candidates[0].server
      && (st.attachments.Valid() ==> u.attachments.Valid())
  {
    var c := t.group.candidates[0];
    GroupPutRecord(st, t.g, t.group, c, CandidateSerial(a.fetch(0), c.busid).value, a);
  }

  lemma NotActive(d: Dict<Record>, g: Id)
    requires !GroupInUse(d, g)
    ensures ActiveFor(d, g).None?
  {
    if ActiveFor(d, g).Some? { assert false; }
  }

  // ---------------------------------------------------------------- the node file

  /**
   * A tick has popped a group's dead record, which has a node, and awaits the device list. A direct attach rewrites
   * the host's file from the records that are left. The put-back does not, so the node is not recreated at boot.
   */
  lemma NodeFileForgets(
      y: System, id: Id, g: Id, newId: Id, got: Outcome, now: int, server: Id, busid: string, o: Options, a: Answers, d: Device)
    returns (xs: seq<Step>, z: System)
    requires Sound(y.st) && y.tasks == [] && y.st.attachments.order == [id] && got.Attached?
    requires
      var att := y.st.attachments.entries[id];
      att.group == Some(g) && att.autoFailover && att.nextRetry.None? && !IsLive(att, LiveOf(y.kernel)) && att.node.Some?
    requires |y.st.groups[g].candidates| == 1 && y.st.groups[g].candidates[0].server in y.st.servers
    requires server in y.st.servers && d.busid == busid && d.status == SharedIdle && a.fetch(0) == Listed([d])
    requires a.attach(0).Attached? && a.node.Some? && a.newId !in y.st.used
    ensures Leads(y, xs, z) && |xs| == 6
    ensures id in z.st.attachments.entries && z.st.attachments.entries[id].node.Some? && Key(id, z.st.attachments.entries[id]) !in z.st.file
    ensures !Covered(z.st)
  {
    var att, group := y.st.attachments.entries[id], y.st.groups[g];
    var c := group.candidates[0];
    var busy := DeviceAnswers(now, newId, c.busid, SharedInUse, got);
    OnlyIdleQualifies(y.st.servers, c, newId, got, now);
    assert y.st.attachments.entries == map[id := att];
    var m := TickPopsAndWaits(y, id, att, g, group, busy);
    var n := UserAttachesDirectly(m, server, busid, o, a, d);
    z := TickPutsBack(n, m.tasks[0], Entry(id, att), c, busy);
    PathFurther(Next(), m, [StartDirect(server, busid, o), ResumeTask(1, a)], n, [ResumeTask(0, busy), ResumeTask(0, busy)], z);
    xs := [StartDirect(server, busid, o), ResumeTask(1, a)] + [ResumeTask(0, busy), ResumeTask(0, busy)];
    PathFurther(Next(), y, [StartTick, ResumeTask(0, busy)], m, xs, z);
    xs := [StartTick, ResumeTask(0, busy)] + xs;
  }

  /** The file then lists the new attachment's node and nothing else. */
  lemma UserAttachesDirectly(y: System, server: Id, busid: string, o: Options, a: Answers, d: Device) returns (z: System)
    requires y.st.attachments == Dict([], map[]) && |y.tasks| == 1 && server in y.st.servers
    requires d.busid == busid && d.status == SharedIdle && a.fetch(0) == Listed([d]) && a.attach(0).Attached? && a.node.Some?
    ensures Leads(y, [StartDirect(server, busid, o), ResumeTask(1, a)], z)
    ensures z.st.attachments.Valid() && |z.tasks| == 2 && z.tasks[0] == y.tasks[0] && z.st.file == map[a.newId := a.node.value]
  {
    var m := Exec(y, StartDirect(server, busid, o));
    assert m.tasks[1] == Fetching(server, busid, o);
    z := Exec(m, ResumeTask(1, a));
    OnlyNodeListed(y.st, server, busid, o, a, d);
    TwoSteps(y, StartDirect(server, busid, o), m, ResumeTask(1, a), z);
  }

  lemma OnlyNodeListed(st: State, server: Id, busid: string, o: Options, a: Answers, d: Device)
    requires st.attachments == Dict([], map[])
    requires d.busid == busid && d.status == SharedIdle && a.fetch(0) == Listed([d]) && a.attach(0).Attached? && a.node.Some?
    ensures
      var t := Resume(st, Fetching(server, busid, o), a).st;
      t.attachments.Valid() && t.file == map[a.newId := a.node.value]
  {
    FetchedStores(st, server, busid, o, a, d);
    StoredAlone(st, server, d, o, a, Resume(st, Fetching(server, busid, o), a).st);
  }

  lemma FetchedStores(st: State, server: Id, busid: string, o: Options, a: Answers, d: Device)
    requires d.busid == busid && d.status == SharedIdle && a.fetch(0) == Listed([d]) && a.attach(0).Attached?
    ensures Resume(st, Fetching(server, busid, o), a).st == DirectStored(st, server, d, o, a.attach(0), a)
  {
    assert FirstDevice([d], AtBusid(busid)) == Some(d);
  }

  lemma StoredAlone(st: State, server: Id, d: Device, o: Options, a: Answers, t: State)
    requires st.attachments == Dict([], map[]) && a.attach(0).Attached? && a.node.Some?
    requires t == DirectStored(st, server, d, o, a.attach(0), a)
    ensures t.attachments.Valid() && t.file == map[a.newId := a.node.value]
  {
    var r := DirectRecord(server, d, o, a.attach(0), a.now);
    var put := st.attachments.Put(a.newId, r);
    assert put == Dict([a.newId], map[a.newId := r]);
    OnlyRecordsNode(st.(attachments := put, used := st.used + {a.newId}), a.newId, r, a.node);
  }

  lemma OnlyRecordsNode(st: State, id: Id, r: Record, node: Option<StableNode>)
    requires st.attachments == Dict([id], map[id := r]) && r.group.None? && node.Some?
    ensures NodeUpdated(st, id, node).attachments.Valid() && NodeUpdated(st, id, node).file == map[id := node.value]
  {
    var with := st.attachments.Put(id, r.(node := node));
    assert with == Dict([id], map[id := r.(node := node)]);
    OneNodePersisted(with, id);
  }

  lemma OneNodePersisted(d: Dict<Record>, id: Id)
    requires d.order == [id] && id in d.entries && d.entries[id].group.None? && d.entries[id].node.Some?
    ensures PersistedNodes(d, d.order) == map[id := d.entries[id].node.value]
  {
    assert d.order[..0] == [];
    assert PersistedNodes(d, []) == map[];
  }
}
