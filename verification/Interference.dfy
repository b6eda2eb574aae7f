/**
 * What stale snapshots can break when the client's coroutines interleave: a group's one record, the servers and
 * groups that records name, and a record the user removed. For each, exactly which step breaks it.
 */
module Interference {
  import opened Text
  import opened OrderedDict
  import opened Devices
  import opened UsbipClient
  import opened Backoff
  import opened ClientState
  import opened Registry
  import opened Interleaving
  import Ownership

  // ------------------------------------------- what one step does to the records

  ghost predicate Alike(r: Record, q: Record) {
    r.server == q.server && r.group == q.group
  }

  ghost predicate Same(r: Record, q: Record) {
    Alike(r, q) && r.node == q.node
  }

  /** The host's file is as it was, or was rewritten from the records as they are now. */
  ghost predicate FileFollows(st: State, t: State) {
    t.file == st.file || t.file == PersistedNodes(t.attachments, t.attachments.order)
  }

  /** From `st` to `t` the record `put` is written, no other one appears or changes server, group or node. */
  ghost predicate Writes(st: State, t: State, put: Option<Entry>) {
    && t.servers == st.servers && t.groups == st.groups && st.used <= t.used && FileFollows(st, t)
    && (forall j :: j in t.attachments.entries && (put.Some? ==> j != put.value.id) ==>
          j in st.attachments.entries && Same(t.attachments.entries[j], st.attachments.entries[j]))
    && (put.Some? ==>
          && put.value.id in t.attachments.entries && Alike(t.attachments.entries[put.value.id], put.value.att)
          && forall j :: j in st.attachments.entries && j != put.value.id ==>
               j in t.attachments.entries && Same(t.attachments.entries[j], st.attachments.entries[j]))
  }

  ghost predicate SegmentWrites(st: State, g: Segment) {
    Writes(st, g.st, g.put)
  }

  lemma NodeUpdateWrites(st: State, u: State, put: Entry, node: Option<StableNode>)
    requires Writes(st, u, Some(put))
    ensures Writes(st, NodeUpdated(u, put.id, node), Some(put))
  {
    NodeUpdateFrame(u, put.id, node);
  }

  lemma FailureWrites(st: State, u: State, put: Option<Entry>, id: Id, now: int)
    requires Writes(st, u, put) && u.file == st.file
    ensures Writes(st, FailureNoted(u, id, now), put)
  {
  }

  lemma DirectFailedWrites(st: State, id: Id, att: Record, busid: string, error: string, a: Answers)
    ensures Writes(st, DirectFailed(st, id, att, busid, error, a), None)
  {
    FailureWrites(st, st, None, id, a.now);
    var noted := FailureNoted(st, id, a.now);
    RequestWritesNothing(st, noted, RebindAsked(noted, att, id, busid, FailureCount(noted, id), error, a.uptime));
  }

  lemma RequestWritesNothing(st: State, noted: State, t: State)
    requires Writes(st, noted, None) && t == noted.(startup := t.startup, trace := t.trace)
    ensures Writes(st, t, None)
  {
  }

  lemma DirectBackWrites(st: State, e: Entry, busid: string, got: Outcome, a: Answers)
    requires got.Attached?
    ensures Writes(st, DirectBack(st, e.id, e.att, busid, got, a), Some(e))
  {
    DirectBackStored(st, e.id, e.att, busid, got, a);
    var u := st.(attachments := st.attachments.Put(e.id, BackRecord(e.att, busid, got, a.now)), trace := st.trace + [Reattached(e.id, a.now)]);
    NodeUpdateWrites(st, u, e, a.node);
  }

  lemma GroupPutWrites(st: State, g: Id, group: Group, c: Candidate, k: nat, serial: string, a: Answers)
    requires a.attach(k).Attached?
    ensures Writes(st, GroupPut(st, g, group, c, k, serial, a), Some(Entry(a.newId, GroupRecord(g, group, c, serial, a.attach(k), a.now))))
  {
    var r := GroupRecord(g, group, c, serial, a.attach(k), a.now);
    var u := st.(attachments := st.attachments.Put(a.newId, r), used := st.used + {a.newId}, trace := st.trace + [GroupAttached(a.newId, g, k)]);
    NodeUpdateWrites(st, u, Entry(a.newId, r), a.node);
  }

  lemma DirectFinishWrites(st: State, server: Id, d: Device, o: Options, a: Answers)
    ensures SegmentWrites(st, DirectFinish(st, server, d, o, a))
  {
    if a.attach(0).Attached? {
      var r := DirectRecord(server, d, o, a.attach(0), a.now);
      var u := st.(attachments := st.attachments.Put(a.newId, r), used := st.used + {a.newId});
      NodeUpdateWrites(st, u, Entry(a.newId, r), a.node);
    }
  }

  lemma GroupFailedWrites(st: State, rest: seq<Entry>, live: map<Port, string>, back: Option<Entry>, now: int)
    ensures SegmentWrites(st, GroupFailed(st, rest, live, back, now))
  {
    if back.Some? {
      var e := back.value;
      FailureWrites(st, st.(attachments := st.attachments.Put(e.id, e.att)), back, e.id, now);
    }
  }

  lemma GroupBeginWrites(st: State, g: Id, rest: seq<Entry>, live: map<Port, string>, back: Option<Entry>, now: int)
    ensures SegmentWrites(st, GroupBegin(st, g, rest, live, back, now))
    ensures var p := GroupBegin(st, g, rest, live, back, now).put; p.Some? ==> p == back
  {
    GroupFailedWrites(st, rest, live, back, now);
  }

  lemma GroupResumeWrites(st: State, t: Task, a: Answers)
    requires t.Querying?
    ensures SegmentWrites(st, GroupResume(st, t, a))
  {
    GroupFailedWrites(st, t.rest, t.live, t.back, a.now);
    if t.k < |t.group.candidates| && Qualifies(t.servers, t.group.candidates[t.k], t.k, a) {
      var c := t.group.candidates[t.k];
      GroupPutWrites(st, t.g, t.group, c, t.k, CandidateSerial(a.fetch(t.k), c.busid).value, a);
    }
  }

  /** Popping a record before and writing none, or that one, back. */
  lemma AfterPop(st: State, id: Id, t: State, put: Option<Entry>)
    requires Writes(st.(attachments := st.attachments.Pop(id)), t, put) && (put.Some? ==> put.value.id == id)
    ensures Writes(st, t, put)
  {
  }

  lemma RestoreBeginWrites(st: State, e: Entry, rest: seq<Entry>, live: map<Port, string>, a: Answers)
    ensures SegmentWrites(st, RestoreBegin(st, e, rest, live, a))
  {
    var popped := st.(attachments := st.attachments.Pop(e.id));
    if !e.att.autoFailover {
      AfterPop(st, e.id, popped, None);
    } else if e.att.group.Some? {
      var g := GroupBegin(popped, e.att.group.value, rest, live, Some(e), a.now);
      GroupBeginWrites(popped, e.att.group.value, rest, live, Some(e), a.now);
      AfterPop(st, e.id, g.st, g.put);
    } else if e.att.server !in st.servers {
      FailureWrites(st, st, None, e.id, a.now);
    } else if a.attach(0).Attached? {
      DirectBackWrites(st, e, e.att.busid, a.attach(0), a);
    }
  }

  lemma RelocateResumeWrites(st: State, t: Task, a: Answers)
    requires t.Relocating?
    ensures SegmentWrites(st, RelocateResume(st, t, a))
  {
    var e := t.entry;
    match FindRelocated(a.fetch(0), e.att.serial, e.att.busid)
    case None => DirectFailedWrites(st, e.id, e.att, e.att.busid, t.error, a);
    case Some(elsewhere) =>
      match a.attach(1)
      case CommandError(error2) => DirectFailedWrites(st, e.id, e.att, elsewhere, error2, a);
      case Attached(_, _) => DirectBackWrites(st, e, elsewhere, a.attach(1), a);
  }

  lemma ResumeWrites(st: State, t: Task, a: Answers)
    ensures SegmentWrites(st, Resume(st, t, a))
  {
    match t
    case Walking(rest, live) =>
      if rest != [] { RestoreBeginWrites(st, rest[0], rest[1..], live, a); }
    case Querying(_, _, _, _, _, _, _) => GroupResumeWrites(st, t, a);
    case Relocating(_, _, _, _) => RelocateResumeWrites(st, t, a);
    case Fetching(server, busid, o) =>
      if a.fetch(0).Listed? && FirstDevice(a.fetch(0).scan, AtBusid(busid)).Some? {
        DirectFinishWrites(st, server, FirstDevice(a.fetch(0).scan, AtBusid(busid)).value, o, a);
      }
    case Sharing(server, d, o) => DirectFinishWrites(st, server, d, o, a);
  }

  lemma PushBeginWrites(st: State, server: Id, busid: string, serial: string, live: map<Port, string>, a: Answers)
    requires st.attachments.Valid()
    ensures SegmentWrites(st, PushBegin(st, server, busid, serial, live, a))
  {
    match PushTarget(st, server, busid, serial, live)
    case None =>
    case Some((e, true)) => RestoreBeginWrites(st, e, [], map[], a);
    case Some((e, false)) =>
      var moved := Entry(e.id, e.att.(busid := busid));
      var u := st.(attachments := st.attachments.Put(e.id, moved.att));
      RestoreBeginWrites(u, moved, [], map[], a);
      AfterRebusing(st, e, u, RestoreBegin(u, moved, [], map[], a));
  }

  lemma AfterRebusing(st: State, e: Entry, u: State, g: Segment)
    requires e.id in st.attachments.entries && st.attachments.entries[e.id] == e.att
    requires exists r :: Same(r, e.att) && u == st.(attachments := st.attachments.Put(e.id, r))
    requires Writes(u, g.st, g.put)
    ensures Writes(st, g.st, g.put)
  {
  }

  /** The record a step writes into the store, if it runs a coroutine that writes one. */
  ghost function PutOf(y: System, x: Step): Option<Entry>
    requires Enabled(y, x)
  {
    if SegmentOf(y, x).Some? then SegmentOf(y, x).value.put else None
  }

  lemma SegmentIsWrite(y: System, x: Step)
    requires Enabled(y, x) && y.st.attachments.Valid() && SegmentOf(y, x).Some?
    ensures SegmentWrites(y.st, SegmentOf(y, x).value)
  {
    match x
    case StartTick =>
    case StartPush(server, busid, serial, _, a) => PushBeginWrites(y.st, server, busid, serial, LiveOf(y.kernel), a);
    case StartGroup(g, a) => GroupBeginWrites(y.st, g, [], map[], None, a.now);
    case StartDirect(_, _, _) =>
    case ResumeTask(i, a) => ResumeWrites(y.st, y.tasks[i], a);
  }

  /** No record appears, or changes server or group. */
  ghost predicate AddsNothing(st: State, t: State) {
    st.used <= t.used && forall j :: j in t.attachments.entries ==>
      j in st.attachments.entries && Alike(t.attachments.entries[j], st.attachments.entries[j])
  }

  lemma ServeAddsNothing(st: State, e: Event)
    requires st.attachments.Valid()
    requires !e.EDirectAttach? && !e.EGroupAttach? && !e.ETick? && !e.EPush? && !e.EStart?
    ensures AddsNothing(st, After(st, e))
  {
    match e
    case EDetach(id, _) => RemovalAddsNothing(st, id);
    case EGroupDetach(g, _) =>
      if ActiveFor(st.attachments, g).Some? { RemovalAddsNothing(st, ActiveFor(st.attachments, g).value); }
    case EEdit(id, o) => EditAddsNothing(st, id, o);
    case _ =>
  }

  lemma RemovalAddsNothing(st: State, id: Id)
    ensures AddsNothing(st, Synced(st.(attachments := st.attachments.Pop(id))))
  {
  }

  lemma EditAddsNothing(st: State, id: Id, o: Options)
    ensures AddsNothing(st, Edited(st, id, o))
  {
  }

  lemma {:induction false} RefreshAddsNothing(st: State, order: seq<Id>, live: map<Port, string>, nodes: Id -> Option<StableNode>)
    ensures AddsNothing(st, NodesRefreshed(st, order, live, nodes))
    ensures NodesRefreshed(st, order, live, nodes).servers == st.servers && NodesRefreshed(st, order, live, nodes).groups == st.groups
  {
    if order != [] {
      var init, id := order[..|order| - 1], order[|order| - 1];
      RefreshAddsNothing(st, init, live, nodes);
      NodeUpdateAddsNothing(st, NodesRefreshed(st, init, live, nodes), id, nodes(id));
    }
  }

  lemma NodeUpdateAddsNothing(st: State, u: State, id: Id, node: Option<StableNode>)
    requires AddsNothing(st, u)
    ensures AddsNothing(st, NodeUpdated(u, id, node))
    ensures NodeUpdated(u, id, node).servers == u.servers && NodeUpdated(u, id, node).groups == u.groups
  {
    NodeUpdateFrame(u, id, node);
    var t := NodeUpdated(u, id, node);
    forall j | j in t.attachments.entries
      ensures j in u.attachments.entries && Alike(t.attachments.entries[j], u.attachments.entries[j])
    {
      assert j == id || t.attachments.entries[j] == u.attachments.entries[j];
    }
  }

  lemma OtherStepsAddNothing(y: System, x: Step)
    requires Enabled(y, x) && y.st.attachments.Valid() && SegmentOf(y, x).None?
    ensures AddsNothing(y.st, Exec(y, x).st)
    ensures !x.Serve? ==> Exec(y, x).st.servers == y.st.servers && Exec(y, x).st.groups == y.st.groups
  {
    match x
    case Serve(e, _) => ServeAddsNothing(y.st, e);
    case Restart(_, nodes) =>
      var begun := y.st.(startup := {}, trace := y.st.trace + [ProcessStarted]);
      RefreshAddsNothing(begun, y.st.attachments.order, LiveOf(KernelBefore(y, x)), nodes);
    case Drop(_) =>
    case Appear(_, _) =>
  }

  // --------------------------------------------------------- one record per group

  /** No other record of its group is in the store: what `_active_attachment_for_group` would find at that moment. */
  ghost predicate GroupIsFree(st: State, e: Entry) {
    e.att.group.Some? ==> forall j :: j in st.attachments.entries && j != e.id ==> st.attachments.entries[j].group != e.att.group
  }

  lemma WriteKeepsOnePerGroup(st: State, t: State, put: Option<Entry>)
    requires Writes(st, t, put) && OnePerGroup(st.attachments)
    ensures OnePerGroup(t.attachments) <==> (put.Some? ==> GroupIsFree(st, put.value))
  {
    if put.Some? && !GroupIsFree(st, put.value) {
      var e := put.value;
      var j :| j in st.attachments.entries && j != e.id && st.attachments.entries[j].group == e.att.group;
      assert t.attachments.entries[j].group == t.attachments.entries[e.id].group;
    }
  }

  /**
   * A step keeps one record per group if and only if the record it writes, if any, is of no group or of one that has
   * no other record at that moment: the guard at the head of a group attach, but not before its writes.
   */
  lemma OnePerGroupExactlyIfFree(y: System, x: Step)
    requires Enabled(y, x) && y.st.attachments.Valid() && OnePerGroup(y.st.attachments)
    ensures OnePerGroup(Exec(y, x).st.attachments) <==> (PutOf(y, x).Some? ==> GroupIsFree(y.st, PutOf(y, x).value))
  {
    if SegmentOf(y, x).Some? {
      SegmentIsWrite(y, x);
      WriteKeepsOnePerGroup(y.st, SegmentOf(y, x).value.st, PutOf(y, x));
    } else {
      OtherStepsAddNothing(y, x);
    }
  }

  // -------------------------------------------------------------- the node file

  /** The node the record persists, if any, is in the host's file under its key. */
  ghost predicate Listed(st: State, id: Id)
    requires id in st.attachments.entries
  {
    var r := st.attachments.entries[id];
    r.node.Some? ==> Key(id, r) in st.file && st.file[Key(id, r)] == r.node.value
  }

  lemma WriteKeepsCovered(st: State, t: State, put: Option<Entry>)
    requires Writes(st, t, put) && Covered(st) && t.attachments.Valid() && DistinctKeys(t.attachments)
    ensures Covered(t) <==> (put.Some? ==> Listed(t, put.value.id))
  {
    if t.file == st.file {
      forall j | j in t.attachments.entries && (put.Some? ==> j != put.value.id)
        ensures Listed(t, j)
      {
        assert Listed(st, j);
      }
      assert Covered(t) <==> forall j :: j in t.attachments.entries ==> Listed(t, j);
    } else {
      forall j | j in t.attachments.entries
        ensures Listed(t, j)
      {
        if t.attachments.entries[j].node.Some? { NodePersisted(t.attachments, t.attachments.order, j); }
      }
    }
  }

  /** What a step of a coroutine does to the file: rewritten if it attached and found the device node, else left. */
  ghost predicate NodeFollows(st: State, g: Segment, node: Option<StableNode>) {
    if g.grant.Some? && node.Some? then g.st.file == PersistedNodes(g.st.attachments, g.st.attachments.order)
    else
      && g.st.file == st.file
      && (g.put.Some? ==>
            g.put.value.id in g.st.attachments.entries && g.st.attachments.entries[g.put.value.id].node == g.put.value.att.node)
  }

  /** The host's file, as it is, lists the node of the entry. */
  ghost predicate EntryListed(st: State, e: Entry) {
    e.att.node.Some? ==> Key(e.id, e.att) in st.file && st.file[Key(e.id, e.att)] == e.att.node.value
  }

  lemma DirectBackNode(st: State, e: Entry, busid: string, got: Outcome, a: Answers)
    requires got.Attached?
    ensures
      var t := DirectBack(st, e.id, e.att, busid, got, a);
      if a.node.Some? then t.file == PersistedNodes(t.attachments, t.attachments.order)
      else t.file == st.file && e.id in t.attachments.entries && t.attachments.entries[e.id].node == e.att.node
  {
    DirectBackStored(st, e.id, e.att, busid, got, a);
  }

  lemma RestoreBeginNode(st: State, e: Entry, rest: seq<Entry>, live: map<Port, string>, a: Answers)
    ensures NodeFollows(st, RestoreBegin(st, e, rest, live, a), a.node)
  {
    if e.att.autoFailover {
      if e.att.group.Some? {
        var popped := st.(attachments := st.attachments.Pop(e.id));
        GroupFailedNode(popped, rest, live, Some(e), a);
      } else if e.att.server in st.servers && a.attach(0).Attached? {
        DirectBackNode(st, e, e.att.busid, a.attach(0), a);
      }
    }
  }

  lemma GroupFailedNode(st: State, rest: seq<Entry>, live: map<Port, string>, back: Option<Entry>, a: Answers)
    ensures NodeFollows(st, GroupFailed(st, rest, live, back, a.now), a.node)
  {
  }

  lemma GroupResumeNode(st: State, t: Task, a: Answers)
    requires t.Querying?
    ensures NodeFollows(st, GroupResume(st, t, a), a.node)
  {
    GroupFailedNode(st, t.rest, t.live, t.back, a);
  }

  lemma RelocateResumeNode(st: State, t: Task, a: Answers)
    requires t.Relocating?
    ensures NodeFollows(st, RelocateResume(st, t, a), a.node)
  {
    var found := FindRelocated(a.fetch(0), t.entry.att.serial, t.entry.att.busid);
    if found.Some? && a.attach(1).Attached? { DirectBackNode(st, t.entry, found.value, a.attach(1), a); }
  }

  lemma DirectFinishNode(st: State, server: Id, d: Device, o: Options, a: Answers)
    ensures NodeFollows(st, DirectFinish(st, server, d, o, a), a.node)
  {
  }

  lemma ResumeNode(st: State, t: Task, a: Answers)
    ensures NodeFollows(st, Resume(st, t, a), a.node)
  {
    match t
    case Walking(rest, live) =>
      if rest != [] { RestoreBeginNode(st, rest[0], rest[1..], live, a); }
    case Querying(_, _, _, _, _, _, _) => GroupResumeNode(st, t, a);
    case Relocating(_, _, _, _) => RelocateResumeNode(st, t, a);
    case Fetching(server, busid, o) =>
      if a.fetch(0).Listed? && FirstDevice(a.fetch(0).scan, AtBusid(busid)).Some? {
        DirectFinishNode(st, server, FirstDevice(a.fetch(0).scan, AtBusid(busid)).value, o, a);
      }
    case Sharing(server, d, o) => DirectFinishNode(st, server, d, o, a);
  }

  lemma PushBeginNode(st: State, server: Id, busid: string, serial: string, live: map<Port, string>, a: Answers)
    ensures NodeFollows(st, PushBegin(st, server, busid, serial, live, a), a.node)
  {
    match PushTarget(st, server, busid, serial, live)
    case None =>
    case Some((e, true)) => RestoreBeginNode(st, e, [], map[], a);
    case Some((e, false)) =>
      var moved := Entry(e.id, e.att.(busid := busid));
      RestoreBeginNode(st.(attachments := st.attachments.Put(e.id, moved.att)), moved, [], map[], a);
  }

  /** The device node a step finds after its attach. */
  function NodeFound(x: Step): Option<StableNode> {
    match x
    case StartPush(_, _, _, _, a) => a.node
    case ResumeTask(_, a) => a.node
    case _ => None
  }

  lemma SegmentNode(y: System, x: Step)
    requires Enabled(y, x) && SegmentOf(y, x).Some?
    ensures NodeFollows(y.st, SegmentOf(y, x).value, NodeFound(x))
  {
    match x
    case StartTick =>
    case StartPush(server, busid, serial, _, a) => PushBeginNode(y.st, server, busid, serial, LiveOf(y.kernel), a);
    case StartGroup(_, _) =>
    case StartDirect(_, _, _) =>
    case ResumeTask(i, a) => ResumeNode(y.st, y.tasks[i], a);
  }

  lemma SegmentCovers(st: State, g: Segment, node: Option<StableNode>)
    requires SegmentWrites(st, g) && NodeFollows(st, g, node) && Covered(st)
    requires g.st.attachments.Valid() && DistinctKeys(g.st.attachments)
    ensures Covered(g.st) <==> (g.put.Some? ==> (g.grant.Some? && node.Some?) || EntryListed(st, g.put.value))
  {
    WriteKeepsCovered(st, g.st, g.put);
    if g.grant.Some? && node.Some? { RewrittenCovers(g.st); }
  }

  lemma RewrittenCovers(st: State)
    requires st.attachments.Valid() && DistinctKeys(st.attachments)
    requires st.file == PersistedNodes(st.attachments, st.attachments.order)
    ensures Covered(st)
  {
    forall j | j in st.attachments.entries && st.attachments.entries[j].node.Some?
      ensures Listed(st, j)
    {
      NodePersisted(st.attachments, st.attachments.order, j);
    }
  }

  /** Only the two detaches touch the file, and they rewrite it from what is left. */
  lemma ServeFile(st: State, e: Event)
    requires st.attachments.Valid()
    requires !e.EDirectAttach? && !e.EGroupAttach? && !e.ETick? && !e.EPush? && !e.EStart?
    ensures
      var t := After(st, e);
      t.file == PersistedNodes(t.attachments, t.attachments.order) || (t.file == st.file && NodesStay(st, t))
  {
    if e.EDetach? || e.EGroupDetach? {
      DetachFile(st, e, After(st, e));
    } else if e.EEdit? {
      EditFile(st, e.id, e.options);
    } else {
      RecordsUntouched(st, e);
    }
  }

  lemma DetachFile(st: State, e: Event, t: State)
    requires st.attachments.Valid() && t == After(st, e) && (e.EDetach? || e.EGroupDetach?)
    ensures t.file == PersistedNodes(t.attachments, t.attachments.order) || t == st
  {
  }

  /** The records are the same ones, with the keys and nodes they had. */
  ghost predicate NodesStay(st: State, t: State) {
    forall j :: j in t.attachments.entries ==> j in st.attachments.entries && Same(t.attachments.entries[j], st.attachments.entries[j])
  }

  lemma EditFile(st: State, id: Id, o: Options)
    ensures Edited(st, id, o).file == st.file && NodesStay(st, Edited(st, id, o))
  {
  }

  lemma FileStaysCovering(st: State, t: State)
    requires Covered(st) && t.attachments.Valid() && DistinctKeys(t.attachments)
    requires t.file == PersistedNodes(t.attachments, t.attachments.order) || (t.file == st.file && NodesStay(st, t))
    ensures Covered(t)
  {
    if t.file == PersistedNodes(t.attachments, t.attachments.order) { RewrittenCovers(t); }
  }

  /** The server and group edits leave the records and the file alone. */
  lemma RecordsUntouched(st: State, e: Event)
    requires st.attachments.Valid()
    requires e.EServerAdd? || e.EServerUpdate? || e.EServerDelete? || e.EGroupCreate? || e.EGroupUpdate? || e.EGroupDelete?
    ensures After(st, e).attachments == st.attachments && After(st, e).file == st.file
  {
  }

  /**
   * While keys are distinct, a step leaves every persisted node in the host's file if and only if the record it
   * writes, if any, was attached and its device node found by that step, or has no node, or is listed there already.
   */
  lemma CoveredExactlyIfListed(y: System, x: Step)
    requires Enabled(y, x) && y.st.attachments.Valid() && Covered(y.st) && DistinctKeys(Exec(y, x).st.attachments)
    ensures Covered(Exec(y, x).st) <==>
      (PutOf(y, x).Some? ==> (Ownership.GrantOf(y, x).Some? && NodeFound(x).Some?) || EntryListed(y.st, PutOf(y, x).value))
  {
    Ownership.StepRecords(y, x, Claim("", 0, ""));
    if SegmentOf(y, x).Some? {
      SegmentIsWrite(y, x);
      SegmentNode(y, x);
      SegmentCovers(y.st, SegmentOf(y, x).value, NodeFound(x));
    } else {
      match x
      case Serve(e, _) =>
        ServeFile(y.st, e);
        FileStaysCovering(y.st, Exec(y, x).st);
      case Restart(_, _) => RewrittenCovers(Exec(y, x).st);
      case Drop(_) =>
      case Appear(_, _) =>
    }
  }

  /** A record put back after a failed group attach is listed exactly if it has no node or the file still lists it. */
  lemma PutBackListedExactly(st: State, rest: seq<Entry>, live: map<Port, string>, e: Entry, now: int)
    ensures
      var t := GroupFailed(st, rest, live, Some(e), now).st;
      && e.id in t.attachments.entries
      && (Listed(t, e.id) <==> e.att.node.None? || (Key(e.id, e.att) in st.file && st.file[Key(e.id, e.att)] == e.att.node.value))
  {
  }

  // ----------------------------------------- servers, groups, and removed records

  ghost predicate ServersExist(st: State) {
    forall id :: id in st.attachments.entries ==> st.attachments.entries[id].server in st.servers
  }

  ghost predicate GroupsExist(st: State) {
    forall id :: id in st.attachments.entries && st.attachments.entries[id].group.Some? ==> st.attachments.entries[id].group.value in st.groups
  }

  lemma ServeKeepsNames(st: State, e: Event)
    requires st.attachments.Valid()
    requires !e.EDirectAttach? && !e.EGroupAttach? && !e.ETick? && !e.EPush? && !e.EStart?
    ensures ServersExist(st) ==> ServersExist(After(st, e))
    ensures GroupsExist(st) ==> GroupsExist(After(st, e))
  {
    match e
    case EDetach(_, _) => RecordEditKeepsNames(st, e);
    case EGroupDetach(_, _) => RecordEditKeepsNames(st, e);
    case EEdit(_, _) => RecordEditKeepsNames(st, e);
    case _ => NameEditKeepsNames(st, e);
  }

  lemma RecordEditKeepsNames(st: State, e: Event)
    requires st.attachments.Valid() && (e.EDetach? || e.EGroupDetach? || e.EEdit?)
    ensures ServersExist(st) ==> ServersExist(After(st, e))
    ensures GroupsExist(st) ==> GroupsExist(After(st, e))
  {
    ServeAddsNothing(st, e);
    assert After(st, e).servers == st.servers && After(st, e).groups == st.groups;
  }

  /** What these guards are for. */
  lemma NameEditKeepsNames(st: State, e: Event)
    requires st.attachments.Valid()
    requires e.EServerAdd? || e.EServerUpdate? || e.EServerDelete? || e.EGroupCreate? || e.EGroupUpdate? || e.EGroupDelete?
    ensures ServersExist(st) ==> ServersExist(After(st, e))
    ensures GroupsExist(st) ==> GroupsExist(After(st, e))
  {
    match e
    case EServerDelete(id) => ServerDeleteKeepsNames(st, id);
    case EGroupDelete(id) => GroupDeleteKeepsNames(st, id);
    case _ => NamesOnlyGrow(st, e);
  }

  lemma ServerDeleteKeepsNames(st: State, id: Id)
    ensures ServersExist(st) ==> ServersExist(ServerDeleted(st, id))
    ensures GroupsExist(st) ==> GroupsExist(ServerDeleted(st, id))
  {
  }

  lemma GroupDeleteKeepsNames(st: State, id: Id)
    ensures ServersExist(st) ==> ServersExist(GroupDeleted(st, id))
    ensures GroupsExist(st) ==> GroupsExist(GroupDeleted(st, id))
  {
  }

  lemma NamesOnlyGrow(st: State, e: Event)
    requires st.attachments.Valid() && (e.EServerAdd? || e.EServerUpdate? || e.EGroupCreate? || e.EGroupUpdate?)
    ensures After(st, e).attachments == st.attachments
    ensures st.servers.Keys <= After(st, e).servers.Keys && st.groups.Keys <= After(st, e).groups.Keys
  {
  }

  lemma WriteKeepsServers(st: State, t: State, put: Option<Entry>)
    requires Writes(st, t, put) && ServersExist(st)
    ensures ServersExist(t) <==> (put.Some? ==> put.value.att.server in st.servers)
  {
  }

  lemma WriteKeepsGroups(st: State, t: State, put: Option<Entry>)
    requires Writes(st, t, put) && GroupsExist(st)
    ensures GroupsExist(t) <==> (put.Some? && put.value.att.group.Some? ==> put.value.att.group.value in st.groups)
  {
  }

  lemma OtherStepsKeepNames(y: System, x: Step)
    requires Enabled(y, x) && y.st.attachments.Valid() && SegmentOf(y, x).None?
    ensures ServersExist(y.st) ==> ServersExist(Exec(y, x).st)
    ensures GroupsExist(y.st) ==> GroupsExist(Exec(y, x).st)
  {
    OtherStepsAddNothing(y, x);
    if x.Serve? { ServeKeepsNames(y.st, x.e); }
  }

  /** A step keeps every record's server in existence if and only if the server of the record it writes is. */
  lemma ServersExistExactlyIfNamed(y: System, x: Step)
    requires Enabled(y, x) && y.st.attachments.Valid() && ServersExist(y.st)
    ensures ServersExist(Exec(y, x).st) <==> (PutOf(y, x).Some? ==> PutOf(y, x).value.att.server in y.st.servers)
  {
    if SegmentOf(y, x).Some? {
      SegmentIsWrite(y, x);
      WriteKeepsServers(y.st, SegmentOf(y, x).value.st, PutOf(y, x));
    } else {
      OtherStepsKeepNames(y, x);
    }
  }

  /** Likewise every record's group. */
  lemma GroupsExistExactlyIfNamed(y: System, x: Step)
    requires Enabled(y, x) && y.st.attachments.Valid() && GroupsExist(y.st)
    ensures GroupsExist(Exec(y, x).st) <==>
      (PutOf(y, x).Some? && PutOf(y, x).value.att.group.Some? ==> PutOf(y, x).value.att.group.value in y.st.groups)
  {
    if SegmentOf(y, x).Some? {
      SegmentIsWrite(y, x);
      WriteKeepsGroups(y.st, SegmentOf(y, x).value.st, PutOf(y, x));
    } else {
      OtherStepsKeepNames(y, x);
    }
  }

  /** A record that is not in the store comes to be there exactly by a step that writes it. */
  lemma ReturnsExactlyIfWritten(y: System, x: Step, id: Id)
    requires Enabled(y, x) && y.st.attachments.Valid() && id !in y.st.attachments.entries
    ensures id in Exec(y, x).st.attachments.entries <==> PutOf(y, x).Some? && PutOf(y, x).value.id == id
  {
    if SegmentOf(y, x).Some? {
      SegmentIsWrite(y, x);
    } else {
      OtherStepsAddNothing(y, x);
    }
  }
}
