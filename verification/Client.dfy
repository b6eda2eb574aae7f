/** The client process: its store and module state, updated in place by the handlers. */
module Client {
  import opened Text
  import opened OrderedDict
  import opened Devices
  import opened UsbipClient
  import opened Backoff
  import opened ClientState
  import opened Registry
  import opened Runs
  import opened Restores

  // What every handler keeps, as `Runs` proves it of the functions that the methods below compute.

  lemma EditIsSound(s: State, id: Id, o: Options)
    ensures Sound(s) ==> Sound(Edited(s, id, o))
  {
    if Sound(s) { EditKeeps(s, id, o); }
  }

  lemma ServerEditsAreSound(s: State, id: Id, server: Server)
    ensures Sound(s) ==> Sound(ServerAdded(s, id, server)) && Sound(ServerUpdated(s, id, server)) && Sound(ServerDeleted(s, id))
  {
    if Sound(s) { ServerEditsKeep(s, id, server); }
  }

  lemma GroupEditsAreSound(s: State, id: Id, group: Group)
    ensures Sound(s) && id !in s.used ==> Sound(GroupCreated(s, id, group))
    ensures Sound(s) ==> Sound(GroupUpdated(s, id, group)) && Sound(GroupDeleted(s, id))
  {
    if Sound(s) { GroupEditsKeep(s, id, group); }
  }

  lemma DirectAttachIsSound(s: State, server: Id, busid: string, o: Options, a: Answers)
    ensures Sound(s) && a.newId !in s.used ==> Sound(DirectAttach(s, server, busid, o, a).0)
  {
    if Sound(s) && a.newId !in s.used { DirectAttachKeeps(s, server, busid, o, a); }
  }

  lemma TickIsSound(s: State, live: map<Port, string>, answers: Id -> Answers)
    ensures Sound(s) && TickFresh(s, s.attachments, 0, answers) ==>
      Sound(Ticked(s, live, answers)) &&
      StableKeys(Ticked(s, live, answers).attachments) == StableKeys(s.attachments) - GivenUpKeys(s.attachments, 0, live, answers)
  {
    if Sound(s) && TickFresh(s, s.attachments, 0, answers) { WholeTickConservesKeys(s, live, answers); }
  }

  lemma PushIsSound(s: State, server: Id, busid: string, serial: string, live: map<Port, string>, a: Answers)
    ensures Sound(s) && a.newId !in s.used ==> Sound(Pushed(s, server, busid, serial, live, a).after)
  {
    if Sound(s) && a.newId !in s.used { PushKeeps(s, server, busid, serial, live, a); }
  }

  lemma StartIsSound(s: State, live: map<Port, string>, nodes: Id -> Option<StableNode>)
    ensures Sound(s) ==> Sound(Started(s, live, nodes))
  {
    if Sound(s) { StartKeeps(s, live, nodes); }
  }

  lemma DetachIsSound(s: State, id: Id, ok: bool)
    ensures Sound(s) ==> Sound(Detached(s, id, ok))
  {
    if Sound(s) { RemovalKeeps(s, id); }
  }

  lemma GroupDetachIsSound(s: State, g: Id, ok: bool)
    ensures Sound(s) ==> Sound(GroupDetach(s, g, ok))
  {
    if Sound(s) && ActiveFor(s.attachments, g).Some? { RemovalKeeps(s, ActiveFor(s.attachments, g).value); }
  }

  lemma GroupAttachIsSound(s: State, g: Id, a: Answers)
    ensures Sound(s) && a.newId !in s.used ==> Sound(GroupAttach(s, g, a).0)
  {
    if Sound(s) && a.newId !in s.used { GroupAttachKeeps(s, g, a); }
  }

  lemma RestoreIsSound(s: State, id: Id, att: Record, a: Answers)
    ensures Restorable(s, id, att, a) ==> Sound(Restore(s, id, att, a).0)
  {
    if Restorable(s, id, att, a) { RestoreKeeps(s, id, att, a); }
  }

  // Each event of a run is one call: the functions below are what the methods of that name compute.

  lemma AttachmentEventsAreCalls(s: State, id: Id, server: Id, busid: string, g: Id, o: Options, a: Answers, ok: bool)
    requires s.attachments.Valid()
    ensures After(s, EDirectAttach(server, busid, o, a)) == DirectAttach(s, server, busid, o, a).0
    ensures After(s, EGroupAttach(g, a)) == GroupAttach(s, g, a).0
    ensures After(s, EGroupDetach(g, ok)) == GroupDetach(s, g, ok)
    ensures After(s, EDetach(id, ok)) == Detached(s, id, ok)
    ensures After(s, EEdit(id, o)) == Edited(s, id, o)
  {
  }

  lemma ServerEventsAreCalls(s: State, id: Id, server: Server)
    requires s.attachments.Valid()
    ensures After(s, EServerAdd(id, server)) == ServerAdded(s, id, server)
    ensures After(s, EServerUpdate(id, server)) == ServerUpdated(s, id, server)
    ensures After(s, EServerDelete(id)) == ServerDeleted(s, id)
  {
  }

  lemma GroupEventsAreCalls(s: State, id: Id, group: Group)
    requires s.attachments.Valid()
    ensures After(s, EGroupCreate(id, group)) == GroupCreated(s, id, group)
    ensures After(s, EGroupUpdate(id, group)) == GroupUpdated(s, id, group)
    ensures After(s, EGroupDelete(id)) == GroupDeleted(s, id)
  {
  }

  lemma WatchdogEventsAreCalls(s: State, live: map<Port, string>, answers: Id -> Answers, nodes: Id -> Option<StableNode>)
    requires s.attachments.Valid()
    ensures After(s, ETick(live, answers)) == Ticked(s, live, answers)
    ensures After(s, EStart(live, nodes)) == Started(s, live, nodes)
  {
  }

  class Process {
    var servers: map<Id, Server>
    var groups: map<Id, Group>
    var attachments: Dict<Record>
    var startup: set<Id>
    var file: map<Id, StableNode>
    ghost var used: set<Id>
    ghost var trace: seq<Effect>

    ghost function Now(): State
      reads this
    {
      State(servers, groups, attachments, startup, file, used, trace)
    }

    /**
     * Every record's server and group exist, no group has two records, every record is on its backoff schedule, and
     * the host's file covers every persisted node.
     */
    ghost predicate Valid()
      reads this
    {
      Sound(Now())
    }

    constructor (s: State)
      ensures Now() == s
    {
      servers, groups, attachments, startup, file := s.servers, s.groups, s.attachments, s.startup, s.file;
      used, trace := s.used, s.trace;
    }

    // ---------------------------------------------- client/app/groups.py

    method NoteReconnectFailure(id: Id, now: int) returns (count: nat)
      modifies this`attachments, this`trace
      ensures Now() == FailureNoted(old(Now()), id, now) && count == FailureCount(Now(), id)
      ensures count == if id in old(attachments).entries then old(attachments).entries[id].failures + 1 else 0
    {
      count := 0;
      if id in attachments.entries {
        var att := attachments.entries[id];
        count := att.failures + 1;
        att := att.(failures := count, lastFailure := Some(now));
        if count >= THRESHOLD {
          var power := BASE_SECONDS * Pow2(count - THRESHOLD);
          var delay := if power < MAX_SECONDS then power else MAX_SECONDS;
          att := att.(nextRetry := Some(now + delay));
        }
        attachments := attachments.Put(id, att);
        trace := trace + [AttemptFailed(id, now)];
      }
    }

    method MaybeForceRebind(att: Record, id: Id, busid: string, count: nat, error: string, uptime: int)
      returns (asked: bool)
      modifies this`startup, this`trace
      ensures Now() == RebindAsked(old(Now()), att, id, busid, count, error, uptime)
      ensures asked <==> att.autoRebind && (count == 6 || (SaysBusy(error) && id !in old(startup) && uptime < 180))
      ensures asked ==> trace == old(trace) + [AskedRebind(id, att.server, busid, if count == 6 then SixFailures else BusyAtStartup)]
      ensures !asked ==> trace == old(trace)
    {
      BusyExactly(error);
      if !att.autoRebind { return false; }
      var why;
      if count == REBIND_AFTER {
        why := SixFailures;
      } else if IsBusyError(error) && id !in startup && uptime < STARTUP_GRACE {
        startup := startup + {id};
        why := BusyAtStartup;
      } else {
        return false;
      }
      trace := trace + [AskedRebind(id, att.server, busid, why)];
      return true;
    }

    method NoteReconnectSuccess(id: Id)
      modifies this`attachments
      ensures Now() == SuccessNoted(old(Now()), id)
    {
      if id in attachments.entries {
        var att := attachments.entries[id];
        if att.failures != 0 || att.nextRetry.Some? {
          att := att.(failures := 0, nextRetry := None);
        }
        attachments := attachments.Put(id, att);
      }
    }

    method CollectNodes() returns (nodes: map<Id, StableNode>)
      ensures nodes == PersistedNodes(attachments, attachments.order)
    {
      nodes := map[];
      var order := attachments.order;
      for i := 0 to |order|
        invariant nodes == PersistedNodes(attachments, order[..i])
      {
        assert order[..i + 1][..i] == order[..i];
        var id := order[i];
        if id in attachments.entries {
          var att := attachments.entries[id];
          if att.node.Some? { nodes := nodes[Key(id, att) := att.node.value]; }
        }
      }
      assert order[..|order|] == order;
    }

    method SyncTmpfilesConf()
      modifies this`file
      ensures Now() == Synced(old(Now()))
    {
      file := CollectNodes();
    }

    method UpdateNodeForPort(id: Id, node: Option<StableNode>)
      modifies this`attachments, this`file
      ensures Now() == NodeUpdated(old(Now()), id, node)
    {
      if node.None? { return; }
      if id in attachments.entries {
        attachments := attachments.Put(id, attachments.entries[id].(node := node));
      }
      SyncTmpfilesConf();
    }

    method FirstMatch(p: Id -> bool) returns (r: Option<Id>)
      ensures r == FirstWhere(attachments.order, p)
    {
      var order := attachments.order;
      for i := 0 to |order|
        invariant FirstWhere(order, p) == FirstWhere(order[i..], p)
      {
        assert order[i..][1..] == order[i + 1..];
        if p(order[i]) { return Some(order[i]); }
      }
      return None;
    }

    /** `attach_group`: candidates in priority order until one attaches. */
    method AttachGroup(g: Id, a: Answers) returns (result: GroupResult)
      modifies this`attachments, this`file, this`used, this`trace
      ensures Now() == GroupAttach(old(Now()), g, a).0 && result == GroupAttach(old(Now()), g, a).1
      ensures old(Valid()) && a.newId !in old(used) ==> Valid()
    {
      GroupAttachIsSound(Now(), g, a);
      if g !in groups { return UnknownGroup; }
      var group := groups[g];
      var active := FirstMatch(InGroup(attachments, g));
      if active.Some? { return AlreadyAttached; }
      for k := 0 to |group.candidates|
        invariant Now() == old(Now())
        invariant Choice(servers, group.candidates, 0, a) == Choice(servers, group.candidates, k, a)
      {
        var c := group.candidates[k];
        if c.server !in servers { continue; }
        var serial := CandidateSerial(a.fetch(k), c.busid);
        if serial.None? { continue; }
        var attached := a.attach(k);
        if attached.CommandError? { continue; }
        attachments := attachments.Put(a.newId, GroupRecord(g, group, c, serial.value, attached, a.now));
        used := used + {a.newId};
        trace := trace + [GroupAttached(a.newId, g, k)];
        UpdateNodeForPort(a.newId, a.node);
        return GroupOk(a.newId, k);
      }
      return NoCandidate;
    }

    method DetachGroup(g: Id, ok: bool) returns (found: bool)
      modifies this`attachments, this`file
      ensures Now() == GroupDetach(old(Now()), g, ok)
      ensures found == ActiveFor(old(attachments), g).Some?
      ensures old(Valid()) ==> Valid()
    {
      GroupDetachIsSound(Now(), g, ok);
      var active := FirstMatch(InGroup(attachments, g));
      if active.None? { return false; }
      if ok {
        attachments := attachments.Pop(active.value);
        SyncTmpfilesConf();
      }
      return true;
    }

    method FailDirect(id: Id, att: Record, busid: string, error: string, a: Answers)
      modifies this`attachments, this`trace, this`startup
      ensures Now() == DirectFailed(old(Now()), id, att, busid, error, a)
    {
      var count := NoteReconnectFailure(id, a.now);
      var asked := MaybeForceRebind(att, id, busid, count, error, a.uptime);
    }

    method RestoreDirectly(id: Id, att: Record, a: Answers) returns (r: Restored)
      modifies this
      ensures Now() == RestoreDirect(old(Now()), id, att, a).0 && r == RestoreDirect(old(Now()), id, att, a).1
    {
      if att.server !in servers {
        var count := NoteReconnectFailure(id, a.now);
        return Failed;
      }
      var target := att.busid;
      var attached := a.attach(0);
      if attached.CommandError? {
        var elsewhere := FindRelocated(a.fetch(0), att.serial, target);
        if elsewhere.None? {
          FailDirect(id, att, target, attached.output, a);
          return Failed;
        }
        attached := a.attach(1);
        if attached.CommandError? {
          FailDirect(id, att, elsewhere.value, attached.output, a);
          return Failed;
        }
        target := elsewhere.value;
      }
      var back := att.(busid := target, attachedAt := a.now, port := attached.port, local := Some(attached.local));
      attachments := attachments.Put(id, back);
      trace := trace + [Reattached(id, a.now)];
      NoteReconnectSuccess(id);
      UpdateNodeForPort(id, a.node);
      return Back;
    }

    method RestoreDropped(id: Id, att: Record, a: Answers) returns (r: Restored)
      modifies this
      ensures Now() == Restore(old(Now()), id, att, a).0 && r == Restore(old(Now()), id, att, a).1
      ensures old(Restorable(Now(), id, att, a)) ==> Valid()
    {
      RestoreIsSound(Now(), id, att, a);
      if !att.autoFailover {
        attachments := attachments.Pop(id);
        return GaveUp;
      }
      if att.group.Some? {
        attachments := attachments.Pop(id);
        var result := AttachGroup(att.group.value, a);
        if result.GroupOk? { return Back; }
        attachments := attachments.Put(id, att);
        var count := NoteReconnectFailure(id, a.now);
        return Failed;
      }
      r := RestoreDirectly(id, att, a);
    }

    /** `reconnect_device`. `detached` is the port it force-detaches, `restored` None for an unknown device. */
    method ReconnectDevice(server: Id, busid: string, serial: string, live: map<Port, string>, a: Answers)
      returns (detached: Option<Port>, restored: Option<Restored>)
      modifies this
      ensures PushResult(Now(), detached, restored) == Pushed(old(Now()), server, busid, serial, live, a)
      ensures old(Valid()) && a.newId !in old(used) ==> Valid()
    {
      PushIsSound(Now(), server, busid, serial, live, a);
      detached := None;
      var cfg := attachments;
      var found := FirstMatch(AtServerBusid(cfg, server, busid));
      if found.Some? {
        var att := cfg.entries[found.value];
        if att.port in live {
          if att.local.None? || att.local.value == live[att.port] {
            detached := Some(att.port);
          }
        }
        var r := RestoreDropped(found.value, att, a);
        return detached, Some(r);
      }
      if serial != "" {
        found := FirstMatch(AtServerSerial(cfg, server, serial, live));
        if found.Some? {
          var att := cfg.entries[found.value].(busid := busid);
          attachments := attachments.Put(found.value, att);
          var r := RestoreDropped(found.value, att, a);
          return None, Some(r);
        }
      }
      return None, None;
    }

    /** `_watchdog_tick`, over a snapshot of the records. */
    method WatchdogTick(live: map<Port, string>, answers: Id -> Answers)
      requires attachments.Valid()
      modifies this
      ensures Now() == Ticked(old(Now()), live, answers)
      ensures old(Valid() && TickFresh(Now(), attachments, 0, answers)) ==>
        Valid() && StableKeys(attachments) == StableKeys(old(attachments)) - GivenUpKeys(old(attachments), 0, live, answers)
    {
      TickIsSound(Now(), live, answers);
      var snap := attachments;
      for i := 0 to |snap.order|
        invariant TickFrom(Now(), snap, i, live, answers) == Ticked(old(Now()), live, answers)
      {
        var id := snap.order[i];
        var att := snap.entries[id];
        if att.port in live && (att.local.None? || att.local.value == live[att.port]) { continue; }
        if ShouldSkip(att, answers(id).now) { continue; }
        var r := RestoreDropped(id, att, answers(id));
      }
    }

    method RestorePersistedNodes(live: map<Port, string>, nodes: Id -> Option<StableNode>)
      modifies this
      ensures Now() == Started(old(Now()), live, nodes)
      ensures old(Valid()) ==> Valid()
    {
      StartIsSound(Now(), live, nodes);
      startup := {};
      trace := trace + [ProcessStarted];
      ghost var begun := Now();
      var cfg := attachments;
      for i := 0 to |cfg.order|
        invariant Now() == NodesRefreshed(begun, cfg.order[..i], live, nodes)
      {
        assert cfg.order[..i + 1][..i] == cfg.order[..i];
        var id := cfg.order[i];
        if id in cfg.entries && cfg.entries[id].port in live {
          UpdateNodeForPort(id, nodes(id));
        }
      }
      assert cfg.order[..|cfg.order|] == cfg.order;
      SyncTmpfilesConf();
    }

    // ------------------------------------------------ client/app/main.py

    method ApiDirectAttach(server: Id, busid: string, o: Options, a: Answers) returns (r: DirectResult)
      modifies this`attachments, this`file, this`used
      ensures Now() == DirectAttach(old(Now()), server, busid, o, a).0 && r == DirectAttach(old(Now()), server, busid, o, a).1
      ensures old(Valid()) && a.newId !in old(used) ==> Valid()
    {
      DirectAttachIsSound(Now(), server, busid, o, a);
      if server !in servers { return UnknownServer; }
      var fetched := a.fetch(0);
      if fetched.Unreachable? { return ServerUnreachable; }
      var device := FirstDevice(fetched.scan, AtBusid(busid));
      if device.None? { return NoSuchDevice; }
      if device.value.status == SharedInUse { return InUse; }
      if device.value.status == Unshared && !a.shareOk { return ShareFailed; }
      var attached := a.attach(0);
      if attached.CommandError? { return AttachFailed; }
      attachments := attachments.Put(a.newId, DirectRecord(server, device.value, o, attached, a.now));
      used := used + {a.newId};
      UpdateNodeForPort(a.newId, a.node);
      return DirectOk(a.newId);
    }

    method ApiDetach(id: Id, ok: bool) returns (found: bool)
      modifies this`attachments, this`file
      ensures Now() == Detached(old(Now()), id, ok) && found == (id in old(attachments).entries)
      ensures old(Valid()) ==> Valid()
    {
      DetachIsSound(Now(), id, ok);
      if id !in attachments.entries { return false; }
      if ok {
        attachments := attachments.Pop(id);
        SyncTmpfilesConf();
      }
      return true;
    }

    method ApiUpdateAttachment(id: Id, o: Options) returns (found: bool)
      modifies this`attachments
      ensures Now() == Edited(old(Now()), id, o) && found == (id in old(attachments).entries)
      ensures found ==>
        && attachments.order == old(attachments).order
        && var r := old(attachments).entries[id];
           attachments.entries == old(attachments).entries[id :=
             Record(r.server, r.busid, r.serial, o.title, r.group, r.attachedAt, o.autoFailover, o.autoRebind, o.actions,
                    r.port, r.local, r.failures, r.nextRetry, r.lastFailure, r.node)]
      ensures old(Valid()) ==> Valid()
    {
      EditIsSound(Now(), id, o);
      if id !in attachments.entries { return false; }
      attachments := attachments.Put(id, attachments.entries[id].(
        title := o.title, autoFailover := o.autoFailover, autoRebind := o.autoRebind, actions := o.actions));
      return true;
    }

    method ApiAddServer(id: Id, server: Server)
      modifies this`servers, this`used
      ensures Now() == ServerAdded(old(Now()), id, server)
      ensures servers == old(servers)[id := server]
      ensures old(Valid()) ==> Valid()
    {
      ServerEditsAreSound(Now(), id, server);
      servers := servers[id := server];
      used := used + {id};
    }

    method ApiUpdateServer(id: Id, server: Server) returns (found: bool)
      modifies this`servers
      ensures Now() == ServerUpdated(old(Now()), id, server) && found == (id in old(servers))
      ensures servers == if found then old(servers)[id := server] else old(servers)
      ensures old(Valid()) ==> Valid()
    {
      ServerEditsAreSound(Now(), id, server);
      if id !in servers { return false; }
      servers := servers[id := server];
      return true;
    }

    method ApiDeleteServer(id: Id) returns (ok: bool)
      modifies this`servers
      ensures Now() == ServerDeleted(old(Now()), id)
      ensures ok <==> forall j :: j in attachments.entries ==> attachments.entries[j].server != id
      ensures servers == if ok then old(servers) - {id} else old(servers)
      ensures old(Valid()) ==> Valid()
    {
      ServerEditsAreSound(Now(), id, Server("", ""));
      if ServerInUse(attachments, id) { return false; }
      servers := servers - {id};
      return true;
    }

    method CandidatesAreValid(group: Group) returns (ok: bool)
      ensures ok == GroupIsValid(Now(), group)
    {
      if group.name == "" || group.candidates == [] { return false; }
      for i := 0 to |group.candidates|
        invariant forall j :: 0 <= j < i ==> group.candidates[j].server in servers
      {
        if group.candidates[i].server !in servers { return false; }
      }
      return true;
    }

    method ApiCreateGroup(id: Id, group: Group) returns (ok: bool)
      modifies this`groups, this`used
      ensures Now() == GroupCreated(old(Now()), id, group)
      ensures ok <==> group.name != "" && |group.candidates| > 0 && forall c :: c in group.candidates ==> c.server in servers
      ensures groups == if ok then old(groups)[id := group] else old(groups)
      ensures old(Valid()) && id !in old(used) ==> Valid()
    {
      GroupEditsAreSound(Now(), id, group);
      ok := CandidatesAreValid(group);
      if ok {
        groups := groups[id := group];
        used := used + {id};
      }
    }

    method ApiUpdateGroup(id: Id, group: Group) returns (ok: bool)
      modifies this`groups
      ensures Now() == GroupUpdated(old(Now()), id, group)
      ensures ok <==>
        && id in old(groups) && (forall j :: j in attachments.entries ==> attachments.entries[j].group != Some(id))
        && group.name != "" && |group.candidates| > 0 && forall c :: c in group.candidates ==> c.server in servers
      ensures groups == if ok then old(groups)[id := group] else old(groups)
      ensures old(Valid()) ==> Valid()
    {
      GroupEditsAreSound(Now(), id, group);
      if id !in groups || GroupInUse(attachments, id) { return false; }
      ok := CandidatesAreValid(group);
      if ok { groups := groups[id := group]; }
    }

    method ApiDeleteGroup(id: Id) returns (ok: bool)
      modifies this`groups
      ensures Now() == GroupDeleted(old(Now()), id)
      ensures ok <==> forall j :: j in attachments.entries ==> attachments.entries[j].group != Some(id)
      ensures groups == if ok then old(groups) - {id} else old(groups)
      ensures old(Valid()) ==> Valid()
    {
      GroupEditsAreSound(Now(), id, Group("", [], false, []));
      if GroupInUse(attachments, id) { return false; }
      groups := groups - {id};
      return true;
    }
  }
}
