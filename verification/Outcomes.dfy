/** The same of pushes, detaches and the start of the process. */
module Outcomes {
  import opened Text
  import opened OrderedDict
  import opened Devices
  import opened UsbipClient
  import opened Backoff
  import opened ClientState
  import opened Registry
  import opened Attaches

  // -------------------------------------------------------------------- pushes

  /** Record `i`, in the dict's order, is the first of that server and busid. */
  ghost predicate FirstRecordAt(d: Dict<Record>, server: Id, busid: string, i: int)
    requires d.Valid()
  {
    && 0 <= i < |d.order| && d.entries[d.order[i]].server == server && d.entries[d.order[i]].busid == busid
    && forall j :: 0 <= j < i ==> !(d.entries[d.order[j]].server == server && d.entries[d.order[j]].busid == busid)
  }

  /** The port is occupied, and by what the record says it had there, if it says. */
  ghost predicate StillThere(r: Record, live: map<Port, string>) {
    r.port in live && (r.local == None || r.local == Some(live[r.port]))
  }

  /** Record `i` is the first of that server and serial whose session is gone. */
  ghost predicate FirstGone(d: Dict<Record>, server: Id, serial: string, live: map<Port, string>, i: int)
    requires d.Valid()
  {
    && 0 <= i < |d.order| && GoneDevice(d.entries[d.order[i]], server, serial, live)
    && forall j :: 0 <= j < i ==> !GoneDevice(d.entries[d.order[j]], server, serial, live)
  }

  ghost predicate GoneDevice(r: Record, server: Id, serial: string, live: map<Port, string>) {
    r.server == server && r.serial == serial && !StillThere(r, live)
  }

  lemma {:induction false} FirstIdIndex(order: seq<Id>, p: Id -> bool) returns (i: int)
    requires FirstWhere(order, p).Some?
    ensures 0 <= i < |order| && FirstWhere(order, p) == Some(order[i]) && p(order[i]) && forall j :: 0 <= j < i ==> !p(order[j])
  {
    if p(order[0]) {
      i := 0;
    } else {
      i := FirstIdIndex(order[1..], p);
      assert forall j :: 1 <= j <= i ==> order[j] == order[1..][j - 1];
      i := i + 1;
    }
  }

  lemma FirstIdIs(order: seq<Id>, p: Id -> bool, i: int)
    requires 0 <= i < |order| && p(order[i]) && forall j :: 0 <= j < i ==> !p(order[j])
    ensures FirstWhere(order, p) == Some(order[i])
  {
    var k := FirstIdIndex(order, p);
  }

  /**
   * A push for a recorded busid concerns the first record there. It detaches that record's port exactly if the port
   * is occupied by what the record had there or does not say, no other port, and then restores the record.
   */
  lemma PushByBusid(s: State, server: Id, busid: string, serial: string, live: map<Port, string>, a: Answers, i: int)
    requires s.attachments.Valid() && FirstRecordAt(s.attachments, server, busid, i)
    ensures
      var id := s.attachments.order[i];
      var r := s.attachments.entries[id];
      && Pushed(s, server, busid, serial, live, a).detached == (if StillThere(r, live) then Some(r.port) else None)
      && Pushed(s, server, busid, serial, live, a).after == Restore(s, id, r, a).0
      && Pushed(s, server, busid, serial, live, a).restored == Some(Restore(s, id, r, a).1)
  {
    FirstIdIs(s.attachments.order, AtServerBusid(s.attachments, server, busid), i);
  }

  lemma NoneAtBusid(d: Dict<Record>, server: Id, busid: string)
    requires d.Valid() && forall j :: j in d.entries ==> d.entries[j].server != server || d.entries[j].busid != busid
    ensures FirstWhere(d.order, AtServerBusid(d, server, busid)).None?
  {
  }

  /**
   * With no record there, a push that carries a serial concerns the first record of that serial whose session is
   * gone: it detaches nothing, stores the new busid and restores the record.
   */
  lemma PushBySerial(s: State, server: Id, busid: string, serial: string, live: map<Port, string>, a: Answers, i: int)
    requires s.attachments.Valid() && serial != "" && FirstGone(s.attachments, server, serial, live, i)
    requires forall j :: j in s.attachments.entries ==>
      s.attachments.entries[j].server != server || s.attachments.entries[j].busid != busid
    ensures
      var id := s.attachments.order[i];
      var r := s.attachments.entries[id].(busid := busid);
      var moved := s.(attachments := s.attachments.Put(id, r));
      Pushed(s, server, busid, serial, live, a) == PushResult(Restore(moved, id, r, a).0, None, Some(Restore(moved, id, r, a).1))
  {
    NoneAtBusid(s.attachments, server, busid);
    FirstIdIs(s.attachments.order, AtServerSerial(s.attachments, server, serial, live), i);
  }

  /** A push that concerns no record does nothing; in particular one by serial leaves records alone that are still there. */
  lemma PushOfUnknown(s: State, server: Id, busid: string, serial: string, live: map<Port, string>, a: Answers)
    requires s.attachments.Valid()
    requires forall j :: j in s.attachments.entries ==>
      s.attachments.entries[j].server != server || s.attachments.entries[j].busid != busid
    requires serial == "" || forall j :: j in s.attachments.entries ==> !GoneDevice(s.attachments.entries[j], server, serial, live)
    ensures Pushed(s, server, busid, serial, live, a) == PushResult(s, None, None)
  {
    NoneAtBusid(s.attachments, server, busid);
  }

  // ------------------------------------------------------------------ detaches

  /** A detach removes exactly the record, and its node from the host's file. */
  lemma DetachRemovesExactly(s: State, id: Id, ok: bool)
    requires Sound(s) && id in s.attachments.entries
    ensures !ok ==> Detached(s, id, ok) == s
    ensures ok ==>
      && Detached(s, id, ok).attachments.entries == s.attachments.entries - {id}
      && Key(id, s.attachments.entries[id]) !in Detached(s, id, ok).file
  {
    if ok { RemovedNodeIsForgotten(s, id); }
  }

  lemma RemovedNodeIsForgotten(s: State, id: Id)
    requires Sound(s) && id in s.attachments.entries
    ensures Key(id, s.attachments.entries[id]) !in Synced(s.(attachments := s.attachments.Pop(id))).file
  {
    KeysDiffer(s);
    SyncForgetsTheRest(s.(attachments := s.attachments.Pop(id)));
  }

  /** A group's detach removes exactly the records of the group, and its node; one of an unattached group does nothing. */
  lemma GroupDetachRemovesExactly(s: State, g: Id, ok: bool)
    requires Sound(s)
    ensures !ok || !IsAttached(s.attachments, g) ==> GroupDetach(s, g, ok) == s
    ensures ok ==> forall j :: j in GroupDetach(s, g, ok).attachments.entries <==> j in s.attachments.entries && s.attachments.entries[j].group != Some(g)
    ensures forall j :: j in GroupDetach(s, g, ok).attachments.entries ==>
      GroupDetach(s, g, ok).attachments.entries[j] == s.attachments.entries[j]
    ensures ok && IsAttached(s.attachments, g) ==> g !in GroupDetach(s, g, ok).file
  {
    ActiveExactlyIfAttached(s.attachments, g);
    if ok && IsAttached(s.attachments, g) { RemovedNodeIsForgotten(s, ActiveFor(s.attachments, g).value); }
  }

  // ------------------------------------------------------------- process start

  /** `t` is `s` with the node found stored in each of the records `ids` whose port is occupied, if one is found. */
  ghost predicate HasFreshNodes(s: State, t: State, ids: seq<Id>, live: map<Port, string>, nodes: Id -> Option<StableNode>) {
    && t == s.(attachments := t.attachments, file := t.file)
    && t.attachments.order == s.attachments.order && t.attachments.entries.Keys == s.attachments.entries.Keys
    && forall id :: id in s.attachments.entries ==>
         t.attachments.entries[id] ==
           if id in ids && s.attachments.entries[id].port in live && nodes(id).Some?
           then s.attachments.entries[id].(node := nodes(id)) else s.attachments.entries[id]
  }

  /** A node found is stored with the record; of the store nothing else changes. */
  lemma NodeGoesToRecord(s: State, id: Id, node: Option<StableNode>)
    requires id in s.attachments.entries
    ensures
      var t := NodeUpdated(s, id, node);
      && t == s.(attachments := t.attachments, file := t.file) && t.attachments.order == s.attachments.order
      && t.attachments.entries ==
           if node.Some? then s.attachments.entries[id := s.attachments.entries[id].(node := node)] else s.attachments.entries
  {
  }

  lemma OneMoreNode(s: State, before: State, t: State, ids: seq<Id>, id: Id, live: map<Port, string>, nodes: Id -> Option<StableNode>)
    requires HasFreshNodes(s, before, ids, live, nodes)
    requires t == if id in s.attachments.entries && s.attachments.entries[id].port in live then NodeUpdated(before, id, nodes(id)) else before
    ensures HasFreshNodes(s, t, ids + [id], live, nodes)
  {
    assert forall j :: j in ids + [id] <==> j in ids || j == id;
    if id in s.attachments.entries { NodeGoesToRecord(before, id, nodes(id)); }
  }

  lemma {:induction false} RefreshedExactly(s: State, ids: seq<Id>, live: map<Port, string>, nodes: Id -> Option<StableNode>)
    ensures HasFreshNodes(s, NodesRefreshed(s, ids, live, nodes), ids, live, nodes)
  {
    if ids != [] {
      var init, last := ids[..|ids| - 1], ids[|ids| - 1];
      RefreshedExactly(s, init, live, nodes);
      assert ids == init + [last];
      OneMoreNode(s, NodesRefreshed(s, init, live, nodes), NodesRefreshed(s, ids, live, nodes), init, last, live, nodes);
    }
  }

  /** A start empties the one-shot set, refreshes the nodes of the records whose port is occupied, no others, and rewrites the file. */
  lemma StartRefreshesExactlyTheLive(s: State, live: map<Port, string>, nodes: Id -> Option<StableNode>)
    requires s.attachments.Valid()
    ensures
      var t := Started(s, live, nodes);
      && t.startup == {} && t.trace == s.trace + [ProcessStarted] && NothingElseListed(t)
      && HasFreshNodes(s, t.(startup := s.startup, trace := s.trace), s.attachments.order, live, nodes)
  {
    var begun := s.(startup := {}, trace := s.trace + [ProcessStarted]);
    RefreshedExactly(begun, s.attachments.order, live, nodes);
    SyncForgetsTheRest(NodesRefreshed(begun, s.attachments.order, live, nodes));
  }
}
