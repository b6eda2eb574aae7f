/** The three ways a record follows its device to a new busid, and what a reconnect preserves. */
module Routes {
  import opened Text
  import opened OrderedDict
  import opened Devices
  import opened UsbipClient
  import opened Backoff
  import opened ClientState
  import opened Registry
  import opened Attention
  import opened Attaches
  import opened Outcomes
  import opened Restores
  import Shares
  import Relocation

  /** The busid `oldBusid` is empty and `d`, which carries its serial, is plugged in elsewhere, shared or not. */
  ghost predicate HasMoved(scan: Scan, serial: string, oldBusid: string, d: Device) {
    Distinct(scan) && d in scan && d.serial == serial && serial != "" && ByBusid(scan, oldBusid).None?
  }

  lemma ServerRoute(b: Shares.Book, scan: Scan, oldBusid: string, d: Device)
    requires oldBusid in b.shared && oldBusid in b.known && HasMoved(scan, b.known[oldBusid], oldBusid, d)
    requires d.busid !in b.shared
    ensures Shares.Target(b, scan, oldBusid) == Some(d.busid)
  {
    assert BySerial(scan, d.serial).value == d;
  }

  /** The client's own search, over the listing it fetches: there the device must be idle by then. */
  lemma SearchRoute(scan: Scan, seen: Scan, serial: string, oldBusid: string, d: Device)
    requires HasMoved(scan, serial, oldBusid, d) && SamePlaces(scan, seen)
    requires forall e :: e in seen && e.serial == serial ==> e.status == SharedIdle
    ensures IdleElsewhere(Listed(seen), serial, oldBusid, d.busid)
  {
    var i :| 0 <= i < |scan| && scan[i] == d;
    assert seen[i] in seen && seen[i].serial == serial && seen[i].busid == d.busid;
    assert d.busid != oldBusid;
    assert MovedSerial(serial, oldBusid)(seen[i]);
    var found := FirstDevice(seen, MovedSerial(serial, oldBusid)).value;
    var j :| 0 <= j < |seen| && seen[j] == found;
    assert scan[j] in scan && scan[j].serial == serial;
    SearchFindsExactlyTheIdle(Listed(seen), serial, oldBusid, d.busid);
  }

  /** What a pass pushes for the device it has moved: its new busid and its serial, if the bind took. */
  lemma ServerPushes(b: Shares.Book, scans: Shares.Scans, force: bool, oldBusid: string, d: Device)
    requires oldBusid in b.shared && oldBusid in b.known && HasMoved(scans.first, b.known[oldBusid], oldBusid, d)
    requires d.busid !in b.shared && NoDuplicates(b.shared) && SamePlaces(scans.first, scans.after(d.busid))
    ensures
      var bound := Shares.Select(Shares.Pass(b, scans.first, scans.final).shared, Shares.Needing(force, scans.second));
      (d.busid, d.serial) in Shares.Pushes(bound, scans.after) <==>
        (force || !ShownShared(scans.second, d.busid)) && ShownShared(scans.after(d.busid), d.busid)
  {
    ServerLeadsTo(b, scans.first, scans.final, oldBusid, d);
    var bound := Shares.Select(Shares.Pass(b, scans.first, scans.final).shared, Shares.Needing(force, scans.second));
    Shares.PushedExactly(bound, scans.after, d.busid, d.serial);
    SharedExactlyIfShown(scans.second, d.busid);
    SharedExactlyIfShown(scans.after(d.busid), d.busid);
    assert ByBusid(scans.first, d.busid).value == d;
    SamePlacesLookup(scans.first, scans.after(d.busid), d.busid);
    LastListed(scans.after(d.busid), d.busid);
  }

  /** The push names the new busid; the client has no record there, and one of that serial that is not live. */
  ghost predicate PushFindsBySerial(s: State, server: Id, id: Id, busid: string, serial: string, live: map<Port, string>) {
    && s.attachments.Valid() && id in s.attachments.entries && serial != ""
    && s.attachments.entries[id].server == server && s.attachments.entries[id].serial == serial
    && !StillThere(s.attachments.entries[id], live)
    && (forall j :: j in s.attachments.entries && s.attachments.entries[j].server == server ==>
          s.attachments.entries[j].busid != busid && (s.attachments.entries[j].serial == serial ==> j == id))
  }

  lemma PushTargets(s: State, server: Id, id: Id, busid: string, serial: string, live: map<Port, string>)
    requires PushFindsBySerial(s, server, id, busid, serial, live)
    ensures FirstWhere(s.attachments.order, AtServerBusid(s.attachments, server, busid)).None?
    ensures FirstWhere(s.attachments.order, AtServerSerial(s.attachments, server, serial, live)) == Some(id)
  {
    assert AtServerSerial(s.attachments, server, serial, live)(id);
    assert id in s.attachments.order;
  }

  lemma PushRoute(s: State, server: Id, id: Id, busid: string, serial: string, live: map<Port, string>, a: Answers, t: State)
    requires PushFindsBySerial(s, server, id, busid, serial, live)
    requires t == s.(attachments := s.attachments.Put(id, s.attachments.entries[id].(busid := busid)))
    ensures Pushed(s, server, busid, serial, live, a).after == Restore(t, id, s.attachments.entries[id].(busid := busid), a).0
  {
    PushTargets(s, server, id, busid, serial, live);
  }

  /**
   * The serial that a group attach stores is what a later push finds its record by: once the session is gone and the
   * device is elsewhere, a push with that serial for a busid no record of that server has concerns this record.
   */
  lemma GroupRecordIsFoundBySerial(
      s: State, g: Id, a: Answers, i: int, busid: string, live: map<Port, string>, push: Answers)
    requires s.attachments.Valid() && a.newId !in s.attachments.entries && g in s.groups && !IsAttached(s.attachments, g)
    requires GroupAttach(s, g, a).1.GroupOk?
    requires
      var c := s.groups[g].candidates[GroupAttach(s, g, a).1.candidate];
      var f := a.fetch(GroupAttach(s, g, a).1.candidate);
      && f.Listed? && FirstAt(f.scan, c.busid, i) && f.scan[i].serial != "" && busid != c.busid
      && (forall j :: j in s.attachments.entries && s.attachments.entries[j].server == c.server ==>
            s.attachments.entries[j].busid != busid && s.attachments.entries[j].serial != f.scan[i].serial)
    requires
      var got := a.attach(GroupAttach(s, g, a).1.candidate);
      got.Attached? && (got.port in live ==> live[got.port] != got.local)
    ensures
      var k := GroupAttach(s, g, a).1.candidate;
      var (t, server, serial) := (GroupAttach(s, g, a).0, s.groups[g].candidates[k].server, a.fetch(k).scan[i].serial);
      && a.newId in t.attachments.entries
      && var r := t.attachments.entries[a.newId].(busid := busid);
         var moved := t.(attachments := t.attachments.Put(a.newId, r));
         Pushed(t, server, busid, serial, live, push) ==
           PushResult(Restore(moved, a.newId, r, push).0, None, Some(Restore(moved, a.newId, r, push).1))
  {
    AttachesTheFirstUsable(s, g, a);
    var (t, k) := (GroupAttach(s, g, a).0, GroupAttach(s, g, a).1.candidate);
    NewRecordIsFound(s, t, s.groups[g].candidates[k].server, a.newId, busid, a.fetch(k).scan[i].serial, live, push);
  }

  lemma NewRecordIsFound(s: State, t: State, server: Id, id: Id, busid: string, serial: string, live: map<Port, string>, push: Answers)
    requires s.attachments.Valid() && GainsRecord(s, t, id) && serial != ""
    requires t.attachments.entries[id].server == server && t.attachments.entries[id].serial == serial
    requires t.attachments.entries[id].busid != busid && !StillThere(t.attachments.entries[id], live)
    requires forall j :: j in s.attachments.entries && s.attachments.entries[j].server == server ==>
      s.attachments.entries[j].busid != busid && s.attachments.entries[j].serial != serial
    ensures
      var r := t.attachments.entries[id].(busid := busid);
      var moved := t.(attachments := t.attachments.Put(id, r));
      Pushed(t, server, busid, serial, live, push) == PushResult(Restore(moved, id, r, push).0, None, Some(Restore(moved, id, r, push).1))
  {
    GainKeepsValid(s, t, id);
    forall j | j in t.attachments.order && j != id
      ensures !GoneDevice(t.attachments.entries[j], server, serial, live)
    {
      assert j in s.attachments.entries;
    }
    PushBySerial(t, server, busid, serial, live, push, |s.attachments.order|);
  }

  lemma GainKeepsValid(s: State, t: State, id: Id)
    requires s.attachments.Valid() && GainsRecord(s, t, id)
    ensures t.attachments.Valid()
  {
  }

  /** A direct record of a registered server that is to be failed over. */
  ghost predicate DirectRecordOf(s: State, server: Id, id: Id) {
    && id in s.attachments.entries && server in s.servers && s.attachments.entries[id].server == server
    && s.attachments.entries[id].group.None? && s.attachments.entries[id].autoFailover
  }

  lemma PushLeadsTo(s: State, server: Id, id: Id, busid: string, serial: string, live: map<Port, string>, a: Answers)
    requires PushFindsBySerial(s, server, id, busid, serial, live) && DirectRecordOf(s, server, id)
    requires a.attach(0).Attached?
    ensures
      var t := Pushed(s, server, busid, serial, live, a).after;
      id in t.attachments.entries && t.attachments.entries[id].busid == busid
  {
    var moved := s.attachments.entries[id].(busid := busid);
    var t := s.(attachments := s.attachments.Put(id, moved));
    PushRoute(s, server, id, busid, serial, live, a, t);
    DirectBackEffect(t, id, moved, busid, a.attach(0), a);
  }

  lemma SearchLeadsTo(s: State, server: Id, id: Id, busid: string, a: Answers)
    requires DirectRecordOf(s, server, id)
    requires a.attach(0).CommandError? && a.attach(1).Attached?
    requires IdleElsewhere(a.fetch(0), s.attachments.entries[id].serial, s.attachments.entries[id].busid, busid)
    ensures
      var t := Restore(s, id, s.attachments.entries[id], a).0;
      id in t.attachments.entries && t.attachments.entries[id].busid == busid
  {
    SearchFindsExactlyTheIdle(a.fetch(0), s.attachments.entries[id].serial, s.attachments.entries[id].busid, busid);
    DirectBackEffect(s, id, s.attachments.entries[id], busid, a.attach(1), a);
  }

  /** A pass moves the share to where the device is: whatever the device's status there, whatever its last listing. */
  lemma ServerLeadsTo(b: Shares.Book, first: Scan, final: Scan, oldBusid: string, d: Device)
    requires oldBusid in b.shared && oldBusid in b.known && HasMoved(first, b.known[oldBusid], oldBusid, d)
    requires d.busid !in b.shared && NoDuplicates(b.shared)
    ensures d.busid in Shares.Pass(b, first, final).shared && oldBusid !in Shares.Pass(b, first, final).shared
  {
    ServerRoute(b, first, oldBusid, d);
    Relocation.SharedAfter(b, first, final, oldBusid);
    Relocation.SharedAfter(b, first, final, d.busid);
  }

  /**
   * With unique serials on a server, its own rename, its push and the client's search all lead to one busid. The
   * pass finds the device unbound or bound at its new busid, tracks it there, binds it if need be and pushes it; the
   * client's direct record ends there whether that push finds it by serial or its own attach is refused first and it
   * searches the listing it then fetches.
   */
  lemma RoutesAgree(
      b: Shares.Book, scans: Shares.Scans, force: bool, oldBusid: string, d: Device,
      s: State, server: Id, id: Id, live: map<Port, string>, push: Answers, visit: Answers, seen: Scan)
    requires oldBusid in b.shared && oldBusid in b.known && HasMoved(scans.first, b.known[oldBusid], oldBusid, d)
    requires d.busid !in b.shared && NoDuplicates(b.shared)
    requires SamePlaces(scans.first, scans.after(d.busid)) && SamePlaces(scans.first, seen)
    requires (force || !ShownShared(scans.second, d.busid)) && ShownShared(scans.after(d.busid), d.busid)
    requires PushFindsBySerial(s, server, id, d.busid, d.serial, live) && DirectRecordOf(s, server, id)
    requires s.attachments.entries[id].busid == oldBusid
    requires push.attach(0).Attached?
    requires visit.attach(0).CommandError? && visit.fetch(0) == Listed(seen) && visit.attach(1).Attached?
    requires forall e :: e in seen && e.serial == d.serial ==> e.status == SharedIdle
    ensures
      var p := Shares.Pass(b, scans.first, scans.final);
      var bound := Shares.Select(p.shared, Shares.Needing(force, scans.second));
      d.busid in p.shared && oldBusid !in p.shared && (d.busid, d.serial) in Shares.Pushes(bound, scans.after)
    ensures
      var pushed := Pushed(s, server, d.busid, d.serial, live, push).after;
      id in pushed.attachments.entries && pushed.attachments.entries[id].busid == d.busid
    ensures
      var searched := Restore(s, id, s.attachments.entries[id], visit).0;
      id in searched.attachments.entries && searched.attachments.entries[id].busid == d.busid
  {
    ServerLeadsTo(b, scans.first, scans.final, oldBusid, d);
    ServerPushes(b, scans, force, oldBusid, d);
    SearchRoute(scans.first, seen, d.serial, oldBusid, d);
    SearchLeadsTo(s, server, id, d.busid, visit);
    PushLeadsTo(s, server, id, d.busid, d.serial, live, push);
  }

  // ------------------------------------------------- when serials are not unique

  ghost predicate BusidsDiffer(scan: Scan) {
    forall i, j :: 0 <= i < j < |scan| ==> scan[i].busid != scan[j].busid
  }

  /** Exactly one entry of the listing carries the serial. */
  ghost predicate OneCarrier(scan: Scan, serial: string) {
    exists i :: 0 <= i < |scan| && scan[i].serial == serial && forall j :: 0 <= j < |scan| && scan[j].serial == serial ==> j == i
  }

  lemma {:induction false} LastCarrier(scan: Scan, serial: string) returns (i: nat)
    requires serial != "" && BySerial(scan, serial).Some?
    ensures i < |scan| && scan[i] == BySerial(scan, serial).value
    ensures forall j :: i < j < |scan| ==> scan[j].serial != serial
  {
    i := |scan| - 1;
    if scan[i].serial != serial {
      var k := LastCarrier(scan[..i], serial);
      assert forall j :: k < j < |scan| - 1 ==> scan[..|scan| - 1][j] == scan[j];
      i := k;
    }
  }

  lemma {:induction false} FirstCarrier(scan: Scan, serial: string, oldBusid: string) returns (i: nat)
    requires forall e :: e in scan ==> e.busid != oldBusid
    requires exists e :: e in scan && e.serial == serial
    ensures FirstDevice(scan, MovedSerial(serial, oldBusid)).Some?
    ensures i < |scan| && scan[i] == FirstDevice(scan, MovedSerial(serial, oldBusid)).value
    ensures forall j :: 0 <= j < i ==> scan[j].serial != serial
  {
    i := 0;
    if scan[0].serial != serial {
      assert scan == [scan[0]] + scan[1..];
      var k := FirstCarrier(scan[1..], serial, oldBusid);
      assert forall j :: 1 <= j <= k ==> scan[j] == scan[1..][j - 1];
      i := k + 1;
    }
  }

  /**
   * The server looks a serial up as the last device listed with it, the client as the first. For every listing they
   * find one busid if and only if exactly one entry carries the serial.
   */
  lemma LookupsAgreeExactlyOnOneCarrier(scan: Scan, serial: string, oldBusid: string)
    requires serial != "" && BusidsDiffer(scan) && ByBusid(scan, oldBusid).None? && BySerial(scan, serial).Some?
    ensures FirstDevice(scan, MovedSerial(serial, oldBusid)).Some?
    ensures BySerial(scan, serial).value.busid == FirstDevice(scan, MovedSerial(serial, oldBusid)).value.busid <==>
      OneCarrier(scan, serial)
  {
    var last := LastCarrier(scan, serial);
    var first := FirstCarrier(scan, serial, oldBusid);
    assert scan[first].serial == serial && scan[last].serial == serial;
    assert scan[first].busid == scan[last].busid <==> first == last;
    if first == last {
      assert forall j :: 0 <= j < |scan| && scan[j].serial == serial ==> j == first;
    }
  }

  /** So the rename and the search, where both come to a result, agree exactly when the serial is on one device. */
  lemma RoutesAgreeExactlyOnOneCarrier(b: Shares.Book, scan: Scan, oldBusid: string)
    requires BusidsDiffer(scan) && Shares.Target(b, scan, oldBusid).Some?
    requires FindRelocated(Listed(scan), b.known[oldBusid], oldBusid).Some?
    ensures Shares.Target(b, scan, oldBusid) == FindRelocated(Listed(scan), b.known[oldBusid], oldBusid) <==>
      OneCarrier(scan, b.known[oldBusid])
  {
    LookupsAgreeExactlyOnOneCarrier(scan, b.known[oldBusid], oldBusid);
  }

  /** In particular on any two devices with one serial. */
  lemma DuplicateSerialsDisagree(b: Shares.Book, scan: Scan, oldBusid: string, i: nat, j: nat)
    requires BusidsDiffer(scan) && Shares.Target(b, scan, oldBusid).Some?
    requires FindRelocated(Listed(scan), b.known[oldBusid], oldBusid).Some?
    requires i < j < |scan| && scan[i].serial == scan[j].serial == b.known[oldBusid]
    ensures Shares.Target(b, scan, oldBusid) != FindRelocated(Listed(scan), b.known[oldBusid], oldBusid)
  {
    RoutesAgreeExactlyOnOneCarrier(b, scan, oldBusid);
  }

  /** A direct reconnect keeps who the attachment is and how it is set up, and clears the failure state. */
  lemma ReconnectPreserves(s: State, id: Id, a: Answers)
    requires id in s.attachments.entries && s.attachments.entries[id].group.None? && s.attachments.entries[id].autoFailover
    requires Restore(s, id, s.attachments.entries[id], a).1.Back?
    ensures
      var before, t := s.attachments.entries[id], Restore(s, id, s.attachments.entries[id], a).0;
      && t.attachments.entries.Keys == s.attachments.entries.Keys && SameSetup(before, t.attachments.entries[id])
      && var r := t.attachments.entries[id];
         && r.failures == 0 && r.nextRetry.None? && r.attachedAt == a.now
         && (r.busid == before.busid || IdleElsewhere(a.fetch(0), before.serial, before.busid, r.busid))
  {
    var att := s.attachments.entries[id];
    if a.attach(0).Attached? {
      DirectBackEffect(s, id, att, att.busid, a.attach(0), a);
      BackPreserves(s, id, att, a, DirectBack(s, id, att, att.busid, a.attach(0), a));
    } else {
      var busid := FindRelocated(a.fetch(0), att.serial, att.busid).value;
      SearchFindsExactlyTheIdle(a.fetch(0), att.serial, att.busid, busid);
      DirectBackEffect(s, id, att, busid, a.attach(1), a);
      BackPreserves(s, id, att, a, DirectBack(s, id, att, busid, a.attach(1), a));
    }
  }

  lemma BackPreserves(s: State, id: Id, att: Record, a: Answers, t: State)
    requires RestoreEffect(s, id, att, a, t, Back) && att.group.None?
    ensures t.attachments.entries.Keys == s.attachments.entries.Keys && id in t.attachments.entries
    ensures SameSetup(att, t.attachments.entries[id])
    ensures t.attachments.entries[id].failures == 0 && t.attachments.entries[id].nextRetry.None? && t.attachments.entries[id].attachedAt == a.now
  {
  }
}
