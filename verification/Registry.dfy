/** What every atomic handler keeps: referential integrity, one record per group, the backoff schedule, the node file. */
module Registry {
  import opened Text
  import opened OrderedDict
  import opened UsbipClient
  import opened Backoff
  import opened ClientState

  /** Every record's server and group exist, no group has two records, and ids of the two kinds never meet. */
  ghost predicate Referential(s: State) {
    && s.attachments.Valid()
    && (forall id :: id in s.attachments.entries ==> s.attachments.entries[id].server in s.servers)
    && (forall id :: id in s.attachments.entries && s.attachments.entries[id].group.Some? ==> s.attachments.entries[id].group.value in s.groups)
    && OnePerGroup(s.attachments)
    && (forall id :: id in s.attachments.entries ==> id in s.used && id !in s.groups)
    && (forall g :: g in s.groups ==> g in s.used)
  }

  ghost predicate OnePerGroup(d: Dict<Record>) {
    forall i, j :: i in d.entries && j in d.entries && d.entries[i].group.Some? && d.entries[i].group == d.entries[j].group ==> i == j
  }

  /** Every record backs off exactly as its failure count says. */
  ghost predicate Scheduled(s: State) {
    forall id :: id in s.attachments.entries ==> OnSchedule(s.attachments.entries[id])
  }

  /** Every node a record persists is in the host's tmpfiles.d entry, under the record's key. */
  ghost predicate Covered(s: State) {
    forall id :: id in s.attachments.entries && s.attachments.entries[id].node.Some? ==>
      Key(id, s.attachments.entries[id]) in s.file &&
      s.file[Key(id, s.attachments.entries[id])] == s.attachments.entries[id].node.value
  }

  ghost predicate Sound(s: State) {
    Referential(s) && Scheduled(s) && Covered(s)
  }

  // ------------------------------------------------------------- the node file

  ghost predicate DistinctKeys(d: Dict<Record>) {
    forall i, j :: i in d.entries && j in d.entries && Key(i, d.entries[i]) == Key(j, d.entries[j]) ==> i == j
  }

  /** The key names one attachment: group ids and attachment ids never meet. */
  lemma KeysDiffer(s: State)
    requires Referential(s)
    ensures DistinctKeys(s.attachments)
  {
  }

  lemma {:induction false} NodePersisted(d: Dict<Record>, order: seq<Id>, id: Id)
    requires DistinctKeys(d) && NoDuplicates(order) && id in order && id in d.entries && d.entries[id].node.Some?
    ensures Key(id, d.entries[id]) in PersistedNodes(d, order)
    ensures PersistedNodes(d, order)[Key(id, d.entries[id])] == d.entries[id].node.value
  {
    var init, last := order[..|order| - 1], order[|order| - 1];
    if id != last { NodePersisted(d, init, id); }
  }

  lemma SyncCovers(s: State)
    requires Referential(s)
    ensures Covered(Synced(s))
  {
    KeysDiffer(s);
    forall id | id in s.attachments.entries && s.attachments.entries[id].node.Some?
      ensures Key(id, s.attachments.entries[id]) in Synced(s).file
      ensures Synced(s).file[Key(id, s.attachments.entries[id])] == s.attachments.entries[id].node.value
    {
      NodePersisted(s.attachments, s.attachments.order, id);
    }
  }

  lemma {:induction false} OnlyStoredNodes(d: Dict<Record>, order: seq<Id>, key: Id) returns (id: Id)
    requires key in PersistedNodes(d, order)
    ensures id in order && id in d.entries && d.entries[id].node.Some? && Key(id, d.entries[id]) == key
  {
    var init, last := order[..|order| - 1], order[|order| - 1];
    if last in d.entries && d.entries[last].node.Some? && Key(last, d.entries[last]) == key {
      id := last;
    } else {
      id := OnlyStoredNodes(d, init, key);
    }
  }

  /** The file lists no key that no record has a node for. */
  ghost predicate NothingElseListed(s: State) {
    forall key :: key in s.file ==>
      exists id :: id in s.attachments.entries && s.attachments.entries[id].node.Some? && Key(id, s.attachments.entries[id]) == key
  }

  /** After rewriting, what was there before is gone. */
  lemma SyncForgetsTheRest(s: State)
    requires s.attachments.Valid()
    ensures NothingElseListed(Synced(s))
  {
    forall key | key in Synced(s).file
      ensures exists id :: id in s.attachments.entries && s.attachments.entries[id].node.Some? && Key(id, s.attachments.entries[id]) == key
    {
      var id := OnlyStoredNodes(s.attachments, s.attachments.order, key);
    }
  }

  // -------------------------------------------------- storing and removing a record

  /** `id` may hold `r`: either it already holds a record of the same group, or it is new and the group has none. */
  ghost predicate MayHold(s: State, id: Id, r: Record) {
    && r.server in s.servers
    && (r.group.Some? ==> r.group.value in s.groups)
    && OnSchedule(r)
    && (if id in s.attachments.entries then r.group == s.attachments.entries[id].group
        else id !in s.used && forall j :: j in s.attachments.entries && r.group.Some? ==> s.attachments.entries[j].group != r.group)
  }

  function Stored(s: State, id: Id, r: Record): State {
    s.(attachments := s.attachments.Put(id, r), used := s.used + {id})
  }

  lemma StoringKeeps(s: State, id: Id, r: Record)
    requires Referential(s) && Scheduled(s) && MayHold(s, id, r)
    ensures Referential(Stored(s, id, r)) && Scheduled(Stored(s, id, r))
  {
  }

  /** A record stored with the node it had, or with none, stays covered. */
  lemma StoringCovers(s: State, id: Id, r: Record)
    requires Covered(s)
    requires r.node.Some? ==> Key(id, r) in s.file && s.file[Key(id, r)] == r.node.value
    ensures Covered(Stored(s, id, r))
  {
  }

  lemma PoppingKeeps(s: State, id: Id)
    requires Sound(s)
    ensures Sound(s.(attachments := s.attachments.Pop(id)))
  {
  }

  /** Refreshing a node changes only that field and the file. */
  lemma NodeUpdateFrame(s: State, id: Id, node: Option<StableNode>)
    ensures
      var t := NodeUpdated(s, id, node);
      && t.servers == s.servers && t.groups == s.groups && t.used == s.used && t.trace == s.trace && t.startup == s.startup
      && t.attachments.entries.Keys == s.attachments.entries.Keys
      && (forall j :: j in s.attachments.entries && j != id ==> t.attachments.entries[j] == s.attachments.entries[j])
      && (id in s.attachments.entries ==> t.attachments.entries[id] == s.attachments.entries[id].(node := t.attachments.entries[id].node))
  {
  }

  lemma NodeUpdateKeeps(s: State, id: Id, node: Option<StableNode>)
    requires Sound(s)
    ensures Sound(NodeUpdated(s, id, node))
  {
    if node.Some? {
      if id in s.attachments.entries {
        var r := s.attachments.entries[id].(node := node);
        StoringKeeps(s, id, r);
        var t := s.(attachments := s.attachments.Put(id, r));
        assert s.used + {id} == s.used;
        assert t == Stored(s, id, r);
        SyncCovers(t);
        SyncKeepsRest(t);
      } else {
        SyncCovers(s);
        SyncKeepsRest(s);
      }
    }
  }

  lemma SyncKeepsRest(s: State)
    requires Referential(s) && Scheduled(s)
    ensures Sound(Synced(s))
  {
    SyncCovers(s);
  }

  // ------------------------------------------------------------- one restore

  /** What `_restore_dropped_attachment` leaves of the records, for a record read from the store. */
  ghost predicate RestoreEffect(s: State, id: Id, att: Record, a: Answers, t: State, r: Restored) {
    && t.servers == s.servers && t.groups == s.groups && s.used <= t.used <= s.used + {a.newId}
    && (forall j :: j in s.attachments.entries && j != id ==> j in t.attachments.entries && t.attachments.entries[j] == s.attachments.entries[j])
    && (match r
        case GaveUp => !att.autoFailover && t.attachments.entries.Keys == s.attachments.entries.Keys - {id}
        case Failed => att.autoFailover && t.attachments.entries == s.attachments.entries[id := Bumped(att, a.now)]
        case Back =>
          att.autoFailover &&
          if att.group.Some? then
            t.attachments.entries.Keys == s.attachments.entries.Keys - {id} + {a.newId} &&
            t.attachments.entries[a.newId].group == att.group && t.attachments.entries[a.newId].failures == 0
          else
            id in s.attachments.entries && t.attachments.entries.Keys == s.attachments.entries.Keys &&
            IsReconnected(t.attachments.entries[id], att, a))
  }

  /** Of a reconnected record only place, session, time, failure state and node are new; with no node found the old one stays. */
  ghost predicate IsReconnected(r: Record, att: Record, a: Answers) {
    r == att.(busid := r.busid, attachedAt := a.now, port := r.port, local := r.local, failures := 0, nextRetry := None,
              node := if a.node.Some? then a.node else att.node)
  }

  ghost predicate Restorable(s: State, id: Id, att: Record, a: Answers) {
    Sound(s) && id in s.attachments.entries && s.attachments.entries[id] == att && a.newId !in s.used
  }

  /** The one-shot set and the trace carry no obligation here. */
  lemma SoundIgnoresTrace(s: State, t: State)
    requires t == s.(startup := t.startup, trace := t.trace)
    ensures Sound(s) ==> Sound(t)
    ensures Referential(s) ==> Referential(t)
    ensures Scheduled(s) ==> Scheduled(t)
  {
  }

  lemma StoredIsSound(s: State, id: Id, r: Record)
    requires Sound(s) && MayHold(s, id, r)
    requires r.node.Some? ==> Key(id, r) in s.file && s.file[Key(id, r)] == r.node.value
    ensures Sound(Stored(s, id, r))
  {
    StoringKeeps(s, id, r);
    StoringCovers(s, id, r);
  }

  /** A record in the store may be replaced by one with the same server, group and node. */
  lemma ReplacementIsSound(s: State, id: Id, att: Record, r: Record)
    requires Sound(s) && id in s.attachments.entries && s.attachments.entries[id] == att
    requires r.server == att.server && r.group == att.group && r.node == att.node && OnSchedule(r)
    ensures Sound(s.(attachments := s.attachments.Put(id, r)))
  {
    StoredIsSound(s, id, r);
    assert s.used + {id} == s.used;
    assert Stored(s, id, r) == s.(attachments := s.attachments.Put(id, r));
  }

  lemma FailureKeeps(s: State, id: Id, att: Record, now: int)
    requires Sound(s) && id in s.attachments.entries && s.attachments.entries[id] == att
    ensures Sound(FailureNoted(s, id, now))
    ensures FailureNoted(s, id, now).attachments.entries == s.attachments.entries[id := Bumped(att, now)]
  {
    FailureKeepsSchedule(att, now);
    ReplacementIsSound(s, id, att, Bumped(att, now));
    SoundIgnoresTrace(s.(attachments := s.attachments.Put(id, Bumped(att, now))), FailureNoted(s, id, now));
  }

  lemma DirectFailedKeeps(s: State, id: Id, att: Record, busid: string, error: string, a: Answers)
    requires Restorable(s, id, att, a) && att.autoFailover
    ensures Sound(DirectFailed(s, id, att, busid, error, a))
    ensures RestoreEffect(s, id, att, a, DirectFailed(s, id, att, busid, error, a), Failed)
  {
    FailureKeeps(s, id, att, a.now);
    SoundIgnoresTrace(FailureNoted(s, id, a.now), DirectFailed(s, id, att, busid, error, a));
  }

  function BackRecord(att: Record, busid: string, got: Outcome, now: int): Record
    requires got.Attached?
  {
    Cleared(att.(busid := busid, attachedAt := now, port := got.port, local := Some(got.local)))
  }

  lemma DirectBackStored(s: State, id: Id, att: Record, busid: string, got: Outcome, a: Answers)
    requires got.Attached?
    ensures
      var t := s.(attachments := s.attachments.Put(id, BackRecord(att, busid, got, a.now)), trace := s.trace + [Reattached(id, a.now)]);
      DirectBack(s, id, att, busid, got, a) == NodeUpdated(t, id, a.node)
  {
    var r := att.(busid := busid, attachedAt := a.now, port := got.port, local := Some(got.local));
    assert s.attachments.entries[id := r][id := Cleared(r)] == s.attachments.entries[id := Cleared(r)];
    assert s.attachments.Put(id, r).Put(id, Cleared(r)) == s.attachments.Put(id, Cleared(r));
  }

  lemma DirectBackIsSound(s: State, id: Id, att: Record, busid: string, got: Outcome, a: Answers)
    requires Restorable(s, id, att, a) && got.Attached?
    ensures Sound(DirectBack(s, id, att, busid, got, a))
  {
    var r := BackRecord(att, busid, got, a.now);
    DirectBackStored(s, id, att, busid, got, a);
    FailureKeepsSchedule(att, a.now);
    ReplacementIsSound(s, id, att, r);
    var put := s.(attachments := s.attachments.Put(id, r));
    var t := put.(trace := s.trace + [Reattached(id, a.now)]);
    SoundIgnoresTrace(put, t);
    NodeUpdateKeeps(t, id, a.node);
  }

  lemma DirectBackEffect(s: State, id: Id, att: Record, busid: string, got: Outcome, a: Answers)
    requires id in s.attachments.entries && s.attachments.entries[id] == att
    requires att.autoFailover && att.group.None? && got.Attached?
    ensures RestoreEffect(s, id, att, a, DirectBack(s, id, att, busid, got, a), Back)
    ensures DirectBack(s, id, att, busid, got, a).trace == s.trace + [Reattached(id, a.now)]
    ensures DirectBack(s, id, att, busid, got, a).startup == s.startup
    ensures
      var b := DirectBack(s, id, att, busid, got, a).attachments.entries[id];
      b.busid == busid && b.port == got.port && b.local == Some(got.local)
  {
    DirectBackStored(s, id, att, busid, got, a);
    var t := s.(attachments := s.attachments.Put(id, BackRecord(att, busid, got, a.now)), trace := s.trace + [Reattached(id, a.now)]);
    NodeUpdateFrame(t, id, a.node);
  }

  lemma DirectBackKeeps(s: State, id: Id, att: Record, busid: string, got: Outcome, a: Answers)
    requires Restorable(s, id, att, a) && att.autoFailover && att.group.None? && got.Attached?
    ensures Sound(DirectBack(s, id, att, busid, got, a))
    ensures RestoreEffect(s, id, att, a, DirectBack(s, id, att, busid, got, a), Back)
  {
    DirectBackIsSound(s, id, att, busid, got, a);
    DirectBackEffect(s, id, att, busid, got, a);
  }

  lemma RestoreDirectKeeps(s: State, id: Id, att: Record, a: Answers)
    requires Restorable(s, id, att, a) && att.autoFailover && att.group.None?
    ensures
      var (t, r) := RestoreDirect(s, id, att, a);
      Sound(t) && RestoreEffect(s, id, att, a, t, r)
  {
    if att.server !in s.servers {
      FailureKeeps(s, id, att, a.now);
    } else {
      match a.attach(0)
      case Attached(_, _) => DirectBackKeeps(s, id, att, att.busid, a.attach(0), a);
      case CommandError(error) =>
        match FindRelocated(a.fetch(0), att.serial, att.busid)
        case None => DirectFailedKeeps(s, id, att, att.busid, error, a);
        case Some(elsewhere) =>
          match a.attach(1)
          case Attached(_, _) => DirectBackKeeps(s, id, att, elsewhere, a.attach(1), a);
          case CommandError(error2) => DirectFailedKeeps(s, id, att, elsewhere, error2, a);
    }
  }

  lemma NoneActive(d: Dict<Record>, g: Id)
    requires d.Valid() && ActiveFor(d, g).None?
    ensures forall j :: j in d.entries ==> d.entries[j].group != Some(g)
  {
    forall j | j in d.entries
      ensures d.entries[j].group != Some(g)
    {
      assert j in d.order;
      assert !InGroup(d, g)(j);
    }
  }

  /** The state `t` is `s` with one new record for group `g` under `id`. */
  ghost predicate GainsGroupRecord(s: State, t: State, g: Id, id: Id) {
    && t.servers == s.servers && t.groups == s.groups && t.used == s.used + {id}
    && t.attachments.entries.Keys == s.attachments.entries.Keys + {id}
    && (forall j :: j in s.attachments.entries ==> j != id && t.attachments.entries[j] == s.attachments.entries[j])
    && t.attachments.entries[id].group == Some(g) && t.attachments.entries[id].failures == 0
  }

  lemma GroupStoredIsSound(s: State, g: Id, k: nat, a: Answers)
    requires Sound(s) && a.newId !in s.used && ActiveFor(s.attachments, g).None?
    requires g in s.groups && k < |s.groups[g].candidates| && Qualifies(s.servers, s.groups[g].candidates[k], k, a)
    ensures Sound(GroupStored(s, g, k, a))
  {
    var c := s.groups[g].candidates[k];
    var r := GroupRecord(g, s.groups[g], c, CandidateSerial(a.fetch(k), c.busid).value, a.attach(k), a.now);
    NoneActive(s.attachments, g);
    StoredIsSound(s, a.newId, r);
    var put := Stored(s, a.newId, r).(trace := s.trace + [GroupAttached(a.newId, g, k)]);
    SoundIgnoresTrace(Stored(s, a.newId, r), put);
    NodeUpdateKeeps(put, a.newId, a.node);
  }

  lemma GroupStoredEffect(s: State, g: Id, k: nat, a: Answers)
    requires a.newId !in s.attachments.entries
    requires g in s.groups && k < |s.groups[g].candidates| && Qualifies(s.servers, s.groups[g].candidates[k], k, a)
    ensures GainsGroupRecord(s, GroupStored(s, g, k, a), g, a.newId)
    ensures GroupStored(s, g, k, a).trace == s.trace + [GroupAttached(a.newId, g, k)]
    ensures GroupStored(s, g, k, a).startup == s.startup
  {
    var c := s.groups[g].candidates[k];
    var r := GroupRecord(g, s.groups[g], c, CandidateSerial(a.fetch(k), c.busid).value, a.attach(k), a.now);
    var put := s.(attachments := s.attachments.Put(a.newId, r), used := s.used + {a.newId},
                  trace := s.trace + [GroupAttached(a.newId, g, k)]);
    NodeUpdateFrame(put, a.newId, a.node);
  }

  lemma GroupBackKeeps(s: State, id: Id, att: Record, a: Answers, k: nat)
    requires Restorable(s, id, att, a) && att.autoFailover && att.group.Some?
    requires GroupAttach(s.(attachments := s.attachments.Pop(id)), att.group.value, a).1 == GroupOk(a.newId, k)
    ensures
      var (t, r) := RestoreGroup(s, id, att, a);
      Sound(t) && RestoreEffect(s, id, att, a, t, r)
  {
    var popped := s.(attachments := s.attachments.Pop(id));
    PoppingKeeps(s, id);
    UnusedIsAbsent(s, a.newId);
    GroupStoredIsSound(popped, att.group.value, k, a);
    GroupStoredEffect(popped, att.group.value, k, a);
  }

  lemma GroupFailedKeeps(s: State, id: Id, att: Record, a: Answers)
    requires Restorable(s, id, att, a) && att.autoFailover
    ensures
      var again := s.(attachments := s.attachments.Pop(id).Put(id, att));
      var t := FailureNoted(again, id, a.now);
      Sound(t) && RestoreEffect(s, id, att, a, t, Failed)
  {
    PutBack(s, id, att);
    FailureKeeps(s.(attachments := s.attachments.Pop(id).Put(id, att)), id, att, a.now);
  }

  lemma RestoreGroupKeeps(s: State, id: Id, att: Record, a: Answers)
    requires Restorable(s, id, att, a) && att.autoFailover && att.group.Some?
    ensures
      var (t, r) := RestoreGroup(s, id, att, a);
      Sound(t) && RestoreEffect(s, id, att, a, t, r)
  {
    var popped := s.(attachments := s.attachments.Pop(id));
    var (after, result) := GroupAttach(popped, att.group.value, a);
    if result.GroupOk? {
      GroupBackKeeps(s, id, att, a, result.candidate);
    } else {
      assert after == popped;
      GroupFailedKeeps(s, id, att, a);
    }
  }

  lemma UnusedIsAbsent(s: State, id: Id)
    requires Referential(s) && id !in s.used
    ensures id !in s.attachments.entries && id !in s.groups
  {
  }

  lemma PutBack(s: State, id: Id, att: Record)
    requires Sound(s) && id in s.attachments.entries && s.attachments.entries[id] == att
    ensures
      var again := s.(attachments := s.attachments.Pop(id).Put(id, att));
      Sound(again) && again.attachments.entries == s.attachments.entries
  {
    var again := s.attachments.Pop(id).Put(id, att);
    assert again.entries == s.attachments.entries;
    SoundIgnoresOrder(s, again);
  }

  lemma SoundIgnoresOrder(s: State, d: Dict<Record>)
    requires Sound(s) && d.Valid() && d.entries == s.attachments.entries
    ensures Sound(s.(attachments := d))
  {
  }

  /** Any restore of a stored record keeps the registry sound, and touches no other record. */
  lemma RestoreKeeps(s: State, id: Id, att: Record, a: Answers)
    requires Restorable(s, id, att, a)
    ensures
      var (t, r) := Restore(s, id, att, a);
      Sound(t) && RestoreEffect(s, id, att, a, t, r)
  {
    if !att.autoFailover {
      PoppingKeeps(s, id);
    } else if att.group.Some? {
      RestoreGroupKeeps(s, id, att, a);
    } else {
      RestoreDirectKeeps(s, id, att, a);
    }
  }

  // ------------------------------------------------------ what a restore notes

  /** The last attach of a restore was refused at `busid`: the record's own, or the one its serial was found at. */
  ghost predicate RefusedAt(att: Record, busid: string, a: Answers) {
    && a.attach(0).CommandError?
    && match FindRelocated(a.fetch(0), att.serial, att.busid)
       case None => busid == att.busid
       case Some(elsewhere) => busid == elsewhere && a.attach(1).CommandError?
  }

  /** A request for a rebind names the record's own server and the busid just refused there. */
  ghost predicate AsksForRefused(e: Effect, id: Id, att: Record, a: Answers) {
    && e.AskedRebind? && e.id == id && e.server == att.server && RefusedAt(att, e.busid, a)
    && att.group.None? && att.autoRebind
  }

  /** Which effects a restore adds to the trace: a failure, with at most a request after it, or one success. */
  ghost predicate RestoreNotes(s: State, id: Id, att: Record, a: Answers, t: State, r: Restored) {
    && s.startup <= t.startup <= s.startup + {id}
    && s.trace <= t.trace
    && match r
       case GaveUp => t.trace == s.trace
       case Failed =>
         && s.trace + [AttemptFailed(id, a.now)] <= t.trace && |t.trace| <= |s.trace| + 2
         && (|t.trace| == |s.trace| + 2 ==> AsksForRefused(t.trace[|s.trace| + 1], id, att, a))
       case Back =>
         && |t.trace| == |s.trace| + 1
         && var e := t.trace[|s.trace|];
            if att.group.None? then e == Reattached(id, a.now)
            else e.GroupAttached? && e.id == a.newId && e.group == att.group.value
  }

  lemma DirectFailedNotes(s: State, id: Id, att: Record, busid: string, error: string, a: Answers)
    requires id in s.attachments.entries && att.group.None?
    requires RefusedAt(att, busid, a)
    ensures RestoreNotes(s, id, att, a, DirectFailed(s, id, att, busid, error, a), Failed)
  {
  }

  lemma DirectBackNotes(s: State, id: Id, att: Record, busid: string, got: Outcome, a: Answers)
    requires id in s.attachments.entries && s.attachments.entries[id] == att
    requires att.autoFailover && att.group.None? && got.Attached?
    ensures RestoreNotes(s, id, att, a, DirectBack(s, id, att, busid, got, a), Back)
  {
    DirectBackEffect(s, id, att, busid, got, a);
  }

  lemma RestoreDirectNotes(s: State, id: Id, att: Record, a: Answers)
    requires Restorable(s, id, att, a) && att.autoFailover && att.group.None?
    ensures RestoreNotes(s, id, att, a, RestoreDirect(s, id, att, a).0, RestoreDirect(s, id, att, a).1)
  {
    if att.server in s.servers {
      match a.attach(0)
      case Attached(_, _) => DirectBackNotes(s, id, att, att.busid, a.attach(0), a);
      case CommandError(error) =>
        match FindRelocated(a.fetch(0), att.serial, att.busid)
        case None => DirectFailedNotes(s, id, att, att.busid, error, a);
        case Some(elsewhere) =>
          match a.attach(1)
          case Attached(_, _) => DirectBackNotes(s, id, att, elsewhere, a.attach(1), a);
          case CommandError(error2) => DirectFailedNotes(s, id, att, elsewhere, error2, a);
    }
  }

  lemma GroupAttachNotes(s: State, g: Id, a: Answers)
    requires a.newId !in s.attachments.entries
    ensures
      var (t, r) := GroupAttach(s, g, a);
      && t.startup == s.startup
      && if r.GroupOk? then
           s.trace <= t.trace && |t.trace| == |s.trace| + 1 &&
           var e := t.trace[|s.trace|];
           e.GroupAttached? && e.id == a.newId && e.group == g
         else t == s
  {
    var (t, r) := GroupAttach(s, g, a);
    if r.GroupOk? { GroupStoredEffect(s, g, r.candidate, a); }
  }

  lemma RestoreGroupNotes(s: State, id: Id, att: Record, a: Answers)
    requires Restorable(s, id, att, a) && att.autoFailover && att.group.Some?
    ensures RestoreNotes(s, id, att, a, RestoreGroup(s, id, att, a).0, RestoreGroup(s, id, att, a).1)
  {
    UnusedIsAbsent(s, a.newId);
    GroupAttachNotes(s.(attachments := s.attachments.Pop(id)), att.group.value, a);
  }

  lemma RestoreNotesEffects(s: State, id: Id, att: Record, a: Answers)
    requires Restorable(s, id, att, a)
    ensures RestoreNotes(s, id, att, a, Restore(s, id, att, a).0, Restore(s, id, att, a).1)
  {
    if att.autoFailover {
      if att.group.Some? {
        RestoreGroupNotes(s, id, att, a);
      } else {
        RestoreDirectNotes(s, id, att, a);
      }
    }
  }

  // ---------------------------------------------------------------- at boot

  /** What systemd reads back from the host's file at boot includes every node a record persists. */
  lemma BootRecreatesEveryNode(s: State, header: seq<string>, id: Id)
    requires Covered(s) && header != [] && IsHeader(header) && Plain(s.file)
    requires id in s.attachments.entries && s.attachments.entries[id].node.Some?
    ensures
      var key := Key(id, s.attachments.entries[id]);
      key in Decode(Render(header, s.file)) && Decode(Render(header, s.file))[key] == EntryOf(s.attachments.entries[id].node.value)
  {
    RenderDecodes(header, s.file);
  }
}
