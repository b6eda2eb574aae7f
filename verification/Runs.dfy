/** Runs of atomic handlers: what a whole tick conserves, and what every run keeps. */
module Runs {
  import opened Text
  import opened OrderedDict
  import opened UsbipClient
  import opened Backoff
  import opened ClientState
  import opened Registry

  /** The stable identities in the store: a group's id, else the attachment's own. */
  ghost function StableKeys(d: Dict<Record>): set<Id> {
    set id | id in d.entries :: Key(id, d.entries[id])
  }

  // -------------------------------------------------------------------- a tick

  /** The ids the rest of a tick may generate are new, and differ. */
  ghost predicate TickFresh(s: State, snap: Dict<Record>, from: nat, answers: Id -> Answers) {
    && (forall i :: from <= i < |snap.order| ==> answers(snap.order[i]).newId !in s.used)
    && (forall i, j :: from <= i < j < |snap.order| ==> answers(snap.order[i]).newId != answers(snap.order[j]).newId)
  }

  /** The snapshot's entries from `from` on are still in the store as they were read. */
  ghost predicate Pending(s: State, snap: Dict<Record>, from: nat) {
    forall j :: from <= j < |snap.order| && snap.order[j] in snap.entries ==>
      snap.order[j] in s.attachments.entries && s.attachments.entries[snap.order[j]] == snap.entries[snap.order[j]]
  }

  /** Not live at the snapshot, not backing off, and not to be failed over. */
  ghost predicate GivenUp(att: Record, live: map<Port, string>, now: int) {
    !IsLive(att, live) && !ShouldSkip(att, now) && !att.autoFailover
  }

  ghost function GivenUpKeys(snap: Dict<Record>, from: nat, live: map<Port, string>, answers: Id -> Answers): set<Id>
    requires snap.Valid()
  {
    set j | from <= j < |snap.order| && GivenUp(snap.entries[snap.order[j]], live, answers(snap.order[j]).now) ::
      Key(snap.order[j], snap.entries[snap.order[j]])
  }

  lemma VisitKeeps(s: State, id: Id, att: Record, live: map<Port, string>, a: Answers)
    requires Restorable(s, id, att, a)
    ensures
      var t := Visited(s, id, att, live, a);
      && Sound(t)
      && (forall j :: j in s.attachments.entries && j != id ==> j in t.attachments.entries && t.attachments.entries[j] == s.attachments.entries[j])
      && s.used <= t.used <= s.used + {a.newId} && t.servers == s.servers
  {
    RestoreKeeps(s, id, att, a);
  }

  lemma EffectOnKeys(s: State, id: Id, att: Record, a: Answers, t: State, r: Restored)
    requires Restorable(s, id, att, a) && RestoreEffect(s, id, att, a, t, r)
    ensures StableKeys(t.attachments) == if r.GaveUp? then StableKeys(s.attachments) - {Key(id, att)} else StableKeys(s.attachments)
  {
    KeysDiffer(s);
    match r
    case GaveUp => KeyRemoved(s.attachments, t.attachments, id);
    case Failed => KeyKept(s.attachments, t.attachments, id, id);
    case Back => KeyKept(s.attachments, t.attachments, id, if att.group.Some? then a.newId else id);
  }

  /** The record of `i` is replaced by one under `j` that has the same key. */
  lemma KeyKept(d: Dict<Record>, e: Dict<Record>, i: Id, j: Id)
    requires i in d.entries && j in e.entries && Key(i, d.entries[i]) == Key(j, e.entries[j])
    requires e.entries.Keys == d.entries.Keys - {i} + {j}
    requires forall k :: k in d.entries && k != i ==> k in e.entries && e.entries[k] == d.entries[k]
    requires j == i || j !in d.entries
    ensures StableKeys(e) == StableKeys(d)
  {
    forall k | k in d.entries
      ensures Key(k, d.entries[k]) in StableKeys(e)
    {
      assert Key(k, d.entries[k]) == if k == i then Key(j, e.entries[j]) else Key(k, e.entries[k]);
    }
    forall k | k in e.entries
      ensures Key(k, e.entries[k]) in StableKeys(d)
    {
      assert Key(k, e.entries[k]) == if k == j then Key(i, d.entries[i]) else Key(k, d.entries[k]);
    }
  }

  lemma KeyRemoved(d: Dict<Record>, e: Dict<Record>, id: Id)
    requires DistinctKeys(d) && id in d.entries && e.entries.Keys == d.entries.Keys - {id}
    requires forall k :: k in d.entries && k != id ==> k in e.entries && e.entries[k] == d.entries[k]
    ensures StableKeys(e) == StableKeys(d) - {Key(id, d.entries[id])}
  {
    forall k | k in d.entries && k != id
      ensures Key(k, d.entries[k]) in StableKeys(e) && Key(k, d.entries[k]) != Key(id, d.entries[id])
    {
      assert k in e.entries && Key(k, e.entries[k]) == Key(k, d.entries[k]);
    }
  }

  lemma VisitKeys(s: State, id: Id, att: Record, live: map<Port, string>, a: Answers)
    requires Restorable(s, id, att, a)
    ensures StableKeys(Visited(s, id, att, live, a).attachments) ==
      if GivenUp(att, live, a.now) then StableKeys(s.attachments) - {Key(id, att)} else StableKeys(s.attachments)
  {
    if !IsLive(att, live) && !ShouldSkip(att, a.now) {
      RestoreKeeps(s, id, att, a);
      var (t, r) := Restore(s, id, att, a);
      EffectOnKeys(s, id, att, a, t, r);
    }
  }

  /** After the visit of its entry `from` a tick can go on from the next one. */
  lemma VisitPending(s: State, snap: Dict<Record>, from: nat, live: map<Port, string>, answers: Id -> Answers)
    requires snap.Valid() && from < |snap.order| && Pending(s, snap, from) && Sound(s) && TickFresh(s, snap, from, answers)
    ensures
      var id := snap.order[from];
      var t := Visited(s, id, snap.entries[id], live, answers(id));
      Sound(t) && Pending(t, snap, from + 1) && TickFresh(t, snap, from + 1, answers)
  {
    var id := snap.order[from];
    var t := Visited(s, id, snap.entries[id], live, answers(id));
    VisitKeeps(s, id, snap.entries[id], live, answers(id));
    StillPending(s, t, snap, from, answers);
  }

  lemma StillPending(s: State, t: State, snap: Dict<Record>, from: nat, answers: Id -> Answers)
    requires snap.Valid() && from < |snap.order| && Pending(s, snap, from) && TickFresh(s, snap, from, answers)
    requires forall j :: j in s.attachments.entries && j != snap.order[from] ==>
      j in t.attachments.entries && t.attachments.entries[j] == s.attachments.entries[j]
    requires t.used <= s.used + {answers(snap.order[from]).newId}
    ensures Pending(t, snap, from + 1) && TickFresh(t, snap, from + 1, answers)
  {
  }

  /** A tick conserves the stable keys except those it gives up, though a group's record changes its id. */
  lemma {:induction false} TickConservesKeys(s: State, snap: Dict<Record>, from: nat, live: map<Port, string>, answers: Id -> Answers)
    requires snap.Valid() && from <= |snap.order| && Sound(s) && Pending(s, snap, from)
    requires TickFresh(s, snap, from, answers)
    ensures Sound(TickFrom(s, snap, from, live, answers))
    ensures StableKeys(TickFrom(s, snap, from, live, answers).attachments) ==
      StableKeys(s.attachments) - GivenUpKeys(snap, from, live, answers)
    decreases |snap.order| - from
  {
    if from < |snap.order| {
      var id := snap.order[from];
      var t := Visited(s, id, snap.entries[id], live, answers(id));
      VisitPending(s, snap, from, live, answers);
      TickConservesKeys(t, snap, from + 1, live, answers);
      VisitConservesKeys(s, snap, from, live, answers, t, TickFrom(t, snap, from + 1, live, answers));
    }
  }

  /** The visit of entry `from`, before the rest of the tick, which ends in `end`. */
  lemma VisitConservesKeys(
      s: State, snap: Dict<Record>, from: nat, live: map<Port, string>, answers: Id -> Answers, t: State, end: State)
    requires snap.Valid() && from < |snap.order| && Sound(s) && Pending(s, snap, from) && TickFresh(s, snap, from, answers)
    requires t == Visited(s, snap.order[from], snap.entries[snap.order[from]], live, answers(snap.order[from]))
    requires end == TickFrom(t, snap, from + 1, live, answers)
    requires StableKeys(end.attachments) == StableKeys(t.attachments) - GivenUpKeys(snap, from + 1, live, answers)
    ensures TickFrom(s, snap, from, live, answers) == end
    ensures StableKeys(end.attachments) == StableKeys(s.attachments) - GivenUpKeys(snap, from, live, answers)
  {
    var id := snap.order[from];
    VisitKeys(s, id, snap.entries[id], live, answers(id));
    GivenUpStep(snap, from, live, answers);
    TickUnfolds(s, snap, from, live, answers, t);
  }

  lemma TickUnfolds(s: State, snap: Dict<Record>, from: nat, live: map<Port, string>, answers: Id -> Answers, t: State)
    requires snap.Valid() && from < |snap.order|
    requires t == Visited(s, snap.order[from], snap.entries[snap.order[from]], live, answers(snap.order[from]))
    ensures TickFrom(s, snap, from, live, answers) == TickFrom(t, snap, from + 1, live, answers)
  {
  }

  lemma GivenUpStep(snap: Dict<Record>, from: nat, live: map<Port, string>, answers: Id -> Answers)
    requires snap.Valid() && from < |snap.order|
    ensures
      var id := snap.order[from];
      GivenUpKeys(snap, from, live, answers) ==
        (if GivenUp(snap.entries[id], live, answers(id).now) then {Key(id, snap.entries[id])} else {}) +
        GivenUpKeys(snap, from + 1, live, answers)
  {
  }

  /** The watchdog's tick, whole. */
  lemma WholeTickConservesKeys(s: State, live: map<Port, string>, answers: Id -> Answers)
    requires Sound(s) && TickFresh(s, s.attachments, 0, answers)
    ensures Sound(Ticked(s, live, answers))
    ensures StableKeys(Ticked(s, live, answers).attachments) ==
      StableKeys(s.attachments) - GivenUpKeys(s.attachments, 0, live, answers)
  {
    TickConservesKeys(s, s.attachments, 0, live, answers);
  }

  // ----------------------------------------------------- every handler keeps soundness

  /** Generated ids are new. */
  ghost predicate EventFresh(s: State, e: Event)
    requires s.attachments.Valid()
  {
    match e
    case EDirectAttach(_, _, _, a) => a.newId !in s.used
    case EGroupAttach(_, a) => a.newId !in s.used
    case EPush(_, _, _, _, a) => a.newId !in s.used
    case EGroupCreate(id, _) => id !in s.used
    case ETick(live, answers) => TickFresh(s, s.attachments, 0, answers)
    case _ => true
  }

  lemma DirectAttachKeeps(s: State, server: Id, busid: string, o: Options, a: Answers)
    requires Sound(s) && a.newId !in s.used
    ensures Sound(DirectAttach(s, server, busid, o, a).0)
  {
    var (t, r) := DirectAttach(s, server, busid, o, a);
    if r.DirectOk? {
      var d := FirstDevice(a.fetch(0).scan, AtBusid(busid)).value;
      var rec := DirectRecord(server, d, o, a.attach(0), a.now);
      StoredIsSound(s, a.newId, rec);
      NodeUpdateKeeps(Stored(s, a.newId, rec), a.newId, a.node);
    }
  }

  lemma GroupAttachKeeps(s: State, g: Id, a: Answers)
    requires Sound(s) && a.newId !in s.used
    ensures Sound(GroupAttach(s, g, a).0)
  {
    var (t, r) := GroupAttach(s, g, a);
    if r.GroupOk? { GroupStoredIsSound(s, g, r.candidate, a); }
  }

  lemma RemovalKeeps(s: State, id: Id)
    requires Sound(s)
    ensures Sound(Synced(s.(attachments := s.attachments.Pop(id))))
  {
    PoppingKeeps(s, id);
    SyncKeepsRest(s.(attachments := s.attachments.Pop(id)));
  }

  lemma EditKeeps(s: State, id: Id, o: Options)
    requires Sound(s)
    ensures Sound(Edited(s, id, o))
  {
    if id in s.attachments.entries {
      var att := s.attachments.entries[id];
      ReplacementIsSound(s, id, att,
        att.(title := o.title, autoFailover := o.autoFailover, autoRebind := o.autoRebind, actions := o.actions));
    }
  }

  lemma PushKeeps(s: State, server: Id, busid: string, serial: string, live: map<Port, string>, a: Answers)
    requires Sound(s) && a.newId !in s.used
    ensures Sound(Pushed(s, server, busid, serial, live, a).after)
  {
    var direct := FirstWhere(s.attachments.order, AtServerBusid(s.attachments, server, busid));
    if direct.Some? {
      RestoreKeeps(s, direct.value, s.attachments.entries[direct.value], a);
    } else if serial != "" {
      var moved := FirstWhere(s.attachments.order, AtServerSerial(s.attachments, server, serial, live));
      if moved.Some? {
        var id := moved.value;
        var att := s.attachments.entries[id];
        ReplacementIsSound(s, id, att, att.(busid := busid));
        RestoreKeeps(s.(attachments := s.attachments.Put(id, att.(busid := busid))), id, att.(busid := busid), a);
      }
    }
  }

  lemma {:induction false} RefreshKeeps(s: State, order: seq<Id>, live: map<Port, string>, nodes: Id -> Option<StableNode>)
    requires Sound(s)
    ensures Sound(NodesRefreshed(s, order, live, nodes))
  {
    if order != [] {
      var init := order[..|order| - 1];
      RefreshKeeps(s, init, live, nodes);
      NodeUpdateKeeps(NodesRefreshed(s, init, live, nodes), order[|order| - 1], nodes(order[|order| - 1]));
    }
  }

  lemma StartKeeps(s: State, live: map<Port, string>, nodes: Id -> Option<StableNode>)
    requires Sound(s)
    ensures Sound(Started(s, live, nodes))
  {
    var begun := s.(startup := {}, trace := s.trace + [ProcessStarted]);
    SoundIgnoresTrace(s, begun);
    RefreshKeeps(begun, s.attachments.order, live, nodes);
    SyncKeepsRest(NodesRefreshed(begun, s.attachments.order, live, nodes));
  }

  /** The guards of the edit handlers are what referential integrity needs. */
  lemma ServerEditsKeep(s: State, id: Id, server: Server)
    requires Sound(s)
    ensures Sound(ServerAdded(s, id, server)) && Sound(ServerUpdated(s, id, server)) && Sound(ServerDeleted(s, id))
  {
  }

  lemma GroupEditsKeep(s: State, id: Id, group: Group)
    requires Sound(s)
    ensures id !in s.used ==> Sound(GroupCreated(s, id, group))
    ensures Sound(GroupUpdated(s, id, group)) && Sound(GroupDeleted(s, id))
  {
  }

  lemma HandlerKeepsSound(s: State, e: Event)
    requires Sound(s) && EventFresh(s, e)
    ensures Sound(After(s, e))
  {
    match e
    case EDirectAttach(server, busid, o, a) => DirectAttachKeeps(s, server, busid, o, a);
    case EGroupAttach(g, a) => GroupAttachKeeps(s, g, a);
    case EGroupDetach(g, ok) =>
      if ActiveFor(s.attachments, g).Some? { RemovalKeeps(s, ActiveFor(s.attachments, g).value); }
    case EDetach(id, ok) => RemovalKeeps(s, id);
    case EEdit(id, o) => EditKeeps(s, id, o);
    case EServerAdd(id, server) => ServerEditsKeep(s, id, server);
    case EServerUpdate(id, server) => ServerEditsKeep(s, id, server);
    case EServerDelete(id) => ServerEditsKeep(s, id, Server("", ""));
    case EGroupCreate(id, group) => GroupEditsKeep(s, id, group);
    case EGroupUpdate(id, group) => GroupEditsKeep(s, id, group);
    case EGroupDelete(id) => GroupEditsKeep(s, id, Group("", [], false, []));
    case ETick(live, answers) => WholeTickConservesKeys(s, live, answers);
    case EPush(server, busid, serial, live, a) => PushKeeps(s, server, busid, serial, live, a);
    case EStart(live, nodes) => StartKeeps(s, live, nodes);
  }

  ghost predicate RunFresh(s: State, es: seq<Event>)
    decreases |es|
  {
    es == [] || (s.attachments.Valid() && EventFresh(s, es[0]) && RunFresh(After(s, es[0]), es[1..]))
  }

  ghost function AfterRun(s: State, es: seq<Event>): State
    requires RunFresh(s, es)
    decreases |es|
  {
    if es == [] then s else AfterRun(After(s, es[0]), es[1..])
  }

  function FirstState(): State {
    State(map[], map[], Dict([], map[]), {}, map[], {}, [])
  }

  lemma FirstStateIsSound()
    ensures Sound(FirstState())
  {
  }

  /**
   * Over every run of atomic handlers: every record's server and group exist, no group has two records, every
   * record is on its backoff schedule, and the host's file covers every persisted node.
   */
  lemma {:induction false} RunKeepsSound(s: State, es: seq<Event>)
    requires Sound(s) && RunFresh(s, es)
    ensures Sound(AfterRun(s, es))
    decreases |es|
  {
    if es != [] {
      HandlerKeepsSound(s, es[0]);
      RunKeepsSound(After(s, es[0]), es[1..]);
    }
  }
}
