/**
 * What a user's attach makes of the answers it gets, read off the stored records, the listings and the commands' results:
 * over fields and positions in lists, apart from the functions that compute it.
 */
module Attaches {
  import opened Text
  import opened OrderedDict
  import opened Devices
  import opened UsbipClient
  import opened Backoff
  import opened ClientState
  import opened Registry
  import opened Runs
  import opened Attention

  // ---------------------------------------------------------------- listings

  /** Entry `i` is the first that the listing has at `busid`. */
  ghost predicate FirstAt(scan: Scan, busid: string, i: int) {
    0 <= i < |scan| && scan[i].busid == busid && forall j :: 0 <= j < i ==> scan[j].busid != busid
  }

  /** Entry `i` is the first with that serial at another busid. */
  ghost predicate FirstElsewhere(scan: Scan, serial: string, oldBusid: string, i: int) {
    && 0 <= i < |scan| && scan[i].serial == serial && scan[i].busid != oldBusid
    && forall j :: 0 <= j < i && scan[j].serial == serial ==> scan[j].busid == oldBusid
  }

  lemma {:induction false} FirstDeviceIndex(scan: Scan, p: Device -> bool) returns (i: nat)
    requires FirstDevice(scan, p).Some?
    ensures i < |scan| && p(scan[i]) && FirstDevice(scan, p) == Some(scan[i]) && forall j :: 0 <= j < i ==> !p(scan[j])
  {
    if p(scan[0]) {
      i := 0;
    } else {
      var k := FirstDeviceIndex(scan[1..], p);
      assert forall j :: 1 <= j <= k ==> scan[j] == scan[1..][j - 1];
      i := k + 1;
    }
  }

  lemma FirstAtIsFound(scan: Scan, busid: string)
    ensures forall i :: FirstAt(scan, busid, i) ==> FirstDevice(scan, AtBusid(busid)) == Some(scan[i])
    ensures FirstDevice(scan, AtBusid(busid)).Some? ==> exists i :: FirstAt(scan, busid, i)
    ensures FirstDevice(scan, AtBusid(busid)).None? <==> forall d :: d in scan ==> d.busid != busid
  {
    if FirstDevice(scan, AtBusid(busid)).Some? {
      var k := FirstDeviceIndex(scan, AtBusid(busid));
      assert FirstAt(scan, busid, k);
    } else {
      forall d | d in scan
        ensures d.busid != busid
      {
        assert !AtBusid(busid)(d);
      }
      assert forall i :: 0 <= i < |scan| ==> scan[i] in scan;
    }
  }

  /** The listing's first device with that serial elsewhere is idle and at `busid`. */
  ghost predicate IdleElsewhere(f: Fetch, serial: string, oldBusid: string, busid: string) {
    serial != "" && f.Listed? &&
    exists i :: FirstElsewhere(f.scan, serial, oldBusid, i) && f.scan[i].status == SharedIdle && f.scan[i].busid == busid
  }

  /** The search by serial finds a busid exactly if the first device with it elsewhere is idle, and that one's busid. */
  lemma SearchFindsExactlyTheIdle(f: Fetch, serial: string, oldBusid: string, busid: string)
    ensures FindRelocated(f, serial, oldBusid) == Some(busid) <==> IdleElsewhere(f, serial, oldBusid, busid)
  {
    if serial != "" && f.Listed? {
      if FirstDevice(f.scan, MovedSerial(serial, oldBusid)).Some? {
        var k := FirstDeviceIndex(f.scan, MovedSerial(serial, oldBusid));
        assert forall j :: 0 <= j < k ==> !MovedSerial(serial, oldBusid)(f.scan[j]);
        assert FirstElsewhere(f.scan, serial, oldBusid, k);
        assert forall i :: FirstElsewhere(f.scan, serial, oldBusid, i) ==> i == k;
      } else {
        forall d | d in f.scan
          ensures d.serial != serial || d.busid == oldBusid
        {
          assert !MovedSerial(serial, oldBusid)(d);
        }
        assert forall i :: 0 <= i < |f.scan| ==> f.scan[i] in f.scan;
      }
    }
  }

  // ------------------------------------------------------------- group attach

  /** The candidate can be used: registered, the first device listed at its busid idle, and the attach succeeds. */
  ghost predicate Usable(servers: map<Id, Server>, c: Candidate, f: Fetch, got: Outcome) {
    && c.server in servers && f.Listed? && got.Attached?
    && exists i :: FirstAt(f.scan, c.busid, i) && f.scan[i].status == SharedIdle
  }

  lemma QualifiesExactlyIfUsable(servers: map<Id, Server>, c: Candidate, k: nat, a: Answers)
    ensures Qualifies(servers, c, k, a) <==> Usable(servers, c, a.fetch(k), a.attach(k))
    ensures forall i :: a.fetch(k).Listed? && FirstAt(a.fetch(k).scan, c.busid, i) && a.fetch(k).scan[i].status == SharedIdle ==>
      CandidateSerial(a.fetch(k), c.busid) == Some(a.fetch(k).scan[i].serial)
  {
    if a.fetch(k).Listed? { FirstAtIsFound(a.fetch(k).scan, c.busid); }
  }

  ghost predicate NeverFailed(r: Record) {
    r.failures == 0 && r.nextRetry.None? && r.lastFailure.None?
  }

  /** `t` is `s` with one record more, last in order, and its id used. */
  ghost predicate GainsRecord(s: State, t: State, id: Id) {
    && t.servers == s.servers && t.groups == s.groups && t.startup == s.startup && t.used == s.used + {id}
    && id !in s.attachments.entries && t.attachments.order == s.attachments.order + [id]
    && t.attachments.entries.Keys == s.attachments.entries.Keys + {id}
    && forall j :: j in s.attachments.entries ==> t.attachments.entries[j] == s.attachments.entries[j]
  }

  /** The record of group `g` attached through its candidate `k`, with the serial listed at that busid. */
  ghost predicate AttachedThrough(r: Record, g: Id, group: Group, k: nat, a: Answers)
    requires k < |group.candidates| && a.fetch(k).Listed?
  {
    var c := group.candidates[k];
    && r.server == c.server && r.busid == c.busid
    && (forall i :: FirstAt(a.fetch(k).scan, c.busid, i) ==> r.serial == a.fetch(k).scan[i].serial)
    && r.title == (if c.title == "" then group.name else c.title)
    && r.group == Some(g) && r.attachedAt == a.now && r.autoFailover == group.autoFailover && !r.autoRebind && r.actions == []
    && r.local.Some? && a.attach(k) == Attached(r.port, r.local.value)
    && NeverFailed(r) && r.node == a.node
  }

  lemma GroupStoredExactly(s: State, g: Id, k: nat, a: Answers)
    requires s.attachments.Valid() && a.newId !in s.attachments.entries
    requires g in s.groups && k < |s.groups[g].candidates| && Qualifies(s.servers, s.groups[g].candidates[k], k, a)
    ensures
      var t := GroupStored(s, g, k, a);
      && GainsRecord(s, t, a.newId) && t.trace == s.trace + [GroupAttached(a.newId, g, k)]
      && a.fetch(k).Listed? && AttachedThrough(t.attachments.entries[a.newId], g, s.groups[g], k, a)
  {
    var c := s.groups[g].candidates[k];
    QualifiesExactlyIfUsable(s.servers, c, k, a);
    var r := GroupRecord(g, s.groups[g], c, CandidateSerial(a.fetch(k), c.busid).value, a.attach(k), a.now);
    RecordIsGained(s, a.newId, r, a.node, s.trace + [GroupAttached(a.newId, g, k)]);
    FirstAtIsFound(a.fetch(k).scan, c.busid);
  }

  /** A record stored under a new id, and then the node found for it. */
  lemma RecordIsGained(s: State, id: Id, r: Record, node: Option<StableNode>, trace: seq<Effect>)
    requires s.attachments.Valid() && id !in s.attachments.entries && r.node.None?
    ensures
      var t := NodeUpdated(s.(attachments := s.attachments.Put(id, r), used := s.used + {id}, trace := trace), id, node);
      GainsRecord(s, t, id) && t.trace == trace && t.attachments.entries[id] == r.(node := node)
  {
    var put := s.(attachments := s.attachments.Put(id, r), used := s.used + {id}, trace := trace);
    assert GainsRecord(s, put, id);
    NodeKeepsGain(s, put, id, node, NodeUpdated(put, id, node));
  }

  lemma NodeKeepsGain(s: State, put: State, id: Id, node: Option<StableNode>, t: State)
    requires GainsRecord(s, put, id) && t == NodeUpdated(put, id, node) && put.attachments.entries[id].node.None?
    ensures GainsRecord(s, t, id) && t.trace == put.trace && t.attachments.entries[id] == put.attachments.entries[id].(node := node)
  {
    NodeUpdateFrame(put, id, node);
  }

  ghost predicate IsAttached(d: Dict<Record>, g: Id) {
    exists j :: j in d.entries && d.entries[j].group == Some(g)
  }

  lemma ActiveExactlyIfAttached(d: Dict<Record>, g: Id)
    requires d.Valid()
    ensures ActiveFor(d, g).Some? <==> IsAttached(d, g)
  {
    if ActiveFor(d, g).None? { NoneActive(d, g); }
  }

  /** `attach_group` refuses an unknown group and one that has a record, and then changes nothing. */
  lemma GroupAttachRefuses(s: State, g: Id, a: Answers)
    requires s.attachments.Valid()
    ensures g !in s.groups ==> GroupAttach(s, g, a) == (s, UnknownGroup)
    ensures g in s.groups && IsAttached(s.attachments, g) ==> GroupAttach(s, g, a) == (s, AlreadyAttached)
  {
    ActiveExactlyIfAttached(s.attachments, g);
  }

  /**
   * `attach_group` as a choice: with the group known and unattached it succeeds exactly when some candidate can be
   * used, attaches the first that can, and stores one new record for it; else nothing changes.
   */
  lemma AttachesTheFirstUsable(s: State, g: Id, a: Answers)
    requires s.attachments.Valid() && a.newId !in s.attachments.entries && g in s.groups && !IsAttached(s.attachments, g)
    ensures
      var group := s.groups[g];
      var (t, r) := GroupAttach(s, g, a);
      && (r.GroupOk? <==> exists k :: 0 <= k < |group.candidates| && Usable(s.servers, group.candidates[k], a.fetch(k), a.attach(k)))
      && (!r.GroupOk? ==> t == s && r.NoCandidate?)
      && (r.GroupOk? ==>
            var k := r.candidate;
            && r.id == a.newId && k < |group.candidates| && Usable(s.servers, group.candidates[k], a.fetch(k), a.attach(k))
            && (forall j :: 0 <= j < k ==> !Usable(s.servers, group.candidates[j], a.fetch(j), a.attach(j)))
            && GainsRecord(s, t, a.newId) && AttachedThrough(t.attachments.entries[a.newId], g, group, k, a)
            && t.trace == s.trace + [GroupAttached(a.newId, g, k)])
  {
    var group := s.groups[g];
    ActiveExactlyIfAttached(s.attachments, g);
    forall k: nat | k < |group.candidates|
      ensures Qualifies(s.servers, group.candidates[k], k, a) <==> Usable(s.servers, group.candidates[k], a.fetch(k), a.attach(k))
    {
      QualifiesExactlyIfUsable(s.servers, group.candidates[k], k, a);
    }
    var k := Choice(s.servers, group.candidates, 0, a);
    if k < |group.candidates| { GroupStoredExactly(s, g, k, a); }
  }

  /** A dropped record of a group comes back exactly when a candidate can be used, under the new id and as the first such says. */
  lemma GroupComesBackExactlyIf(s: State, id: Id, att: Record, a: Answers)
    requires Restorable(s, id, att, a) && att.autoFailover && att.group.Some?
    ensures
      var g, group := att.group.value, s.groups[att.group.value];
      var (t, r) := Restore(s, id, att, a);
      && (r.Back? <==> exists k :: 0 <= k < |group.candidates| && Usable(s.servers, group.candidates[k], a.fetch(k), a.attach(k)))
      && (r.Back? ==>
            && id !in t.attachments.entries && a.newId in t.attachments.entries
            && exists k: nat :: FirstUsable(s.servers, group, k, a) && AttachedThrough(t.attachments.entries[a.newId], g, group, k, a))
  {
    var g := att.group.value;
    var popped := s.(attachments := s.attachments.Pop(id));
    assert !IsAttached(popped.attachments, g);
    UnusedIsAbsent(s, a.newId);
    AttachesTheFirstUsable(popped, g, a);
    var (t, r) := GroupAttach(popped, g, a);
    if r.GroupOk? { assert FirstUsable(s.servers, s.groups[g], r.candidate, a); }
  }

  ghost predicate FirstUsable(servers: map<Id, Server>, group: Group, k: nat, a: Answers) {
    && k < |group.candidates| && Usable(servers, group.candidates[k], a.fetch(k), a.attach(k))
    && forall j :: 0 <= j < k ==> !Usable(servers, group.candidates[j], a.fetch(j), a.attach(j))
  }

  // ------------------------------------------------------------ direct attach

  /** The record a direct attach of the listed device is to leave. */
  ghost predicate AsRequested(r: Record, server: Id, d: Device, o: Options, a: Answers) {
    && r.server == server && r.busid == d.busid && r.serial == d.serial && r.title == (if o.title == "" then d.title else o.title)
    && r.group.None? && r.attachedAt == a.now
    && r.autoFailover == o.autoFailover && r.autoRebind == o.autoRebind && r.actions == o.actions
    && r.local.Some? && a.attach(0) == Attached(r.port, r.local.value)
    && NeverFailed(r) && r.node == a.node
  }

  /** Where the server cannot be asked or does not list the busid, nothing is attached. */
  lemma DirectAttachNeedsDevice(s: State, server: Id, busid: string, o: Options, a: Answers)
    ensures server !in s.servers ==> DirectAttach(s, server, busid, o, a) == (s, UnknownServer)
    ensures server in s.servers && a.fetch(0).Unreachable? ==> DirectAttach(s, server, busid, o, a) == (s, ServerUnreachable)
    ensures server in s.servers && a.fetch(0).Listed? && (forall d :: d in a.fetch(0).scan ==> d.busid != busid) ==>
      DirectAttach(s, server, busid, o, a) == (s, NoSuchDevice)
  {
    if a.fetch(0).Listed? { FirstAtIsFound(a.fetch(0).scan, busid); }
  }

  /**
   * Otherwise the first device listed there decides: in use it is refused, unshared it is shared first, and with that
   * and the attach successful one new record has its serial, and everything else as asked for.
   */
  lemma DirectAttachExactly(s: State, server: Id, busid: string, o: Options, a: Answers, i: int)
    requires s.attachments.Valid() && a.newId !in s.attachments.entries
    requires server in s.servers && a.fetch(0).Listed? && FirstAt(a.fetch(0).scan, busid, i)
    ensures
      var d := a.fetch(0).scan[i];
      var (t, r) := DirectAttach(s, server, busid, o, a);
      && (r.InUse? <==> d.status == SharedInUse)
      && (r.ShareFailed? <==> d.status == Unshared && !a.shareOk)
      && (r.AttachFailed? <==> d.status != SharedInUse && (d.status == Unshared ==> a.shareOk) && a.attach(0).CommandError?)
      && (r.DirectOk? <==> d.status != SharedInUse && (d.status == Unshared ==> a.shareOk) && a.attach(0).Attached?)
      && (!r.DirectOk? ==> t == s)
      && (r.DirectOk? ==>
            && r.id == a.newId && GainsRecord(s, t, a.newId) && t.trace == s.trace
            && AsRequested(t.attachments.entries[a.newId], server, d, o, a))
  {
    DirectAttachDecides(s, server, busid, o, a, i);
    if a.attach(0).Attached? { DirectStoredExactly(s, server, a.fetch(0).scan[i], o, a); }
  }

  lemma DirectAttachDecides(s: State, server: Id, busid: string, o: Options, a: Answers, i: int)
    requires server in s.servers && a.fetch(0).Listed? && FirstAt(a.fetch(0).scan, busid, i)
    ensures
      var d := a.fetch(0).scan[i];
      DirectAttach(s, server, busid, o, a) ==
        if d.status == SharedInUse then (s, InUse) else if d.status == Unshared && !a.shareOk then (s, ShareFailed)
        else if a.attach(0).CommandError? then (s, AttachFailed)
        else (DirectStored(s, server, d, o, a.attach(0), a), DirectOk(a.newId))
  {
    FirstAtIsFound(a.fetch(0).scan, busid);
  }

  lemma DirectStoredExactly(s: State, server: Id, d: Device, o: Options, a: Answers)
    requires s.attachments.Valid() && a.newId !in s.attachments.entries && a.attach(0).Attached?
    ensures
      var t := DirectStored(s, server, d, o, a.attach(0), a);
      GainsRecord(s, t, a.newId) && t.trace == s.trace && AsRequested(t.attachments.entries[a.newId], server, d, o, a)
  {
    RecordIsGained(s, a.newId, DirectRecord(server, d, o, a.attach(0), a.now), a.node, s.trace);
  }

  /** Attached with failover, the device keeps its record, serial and options over any ticks that follow. */
  lemma FailoverAttachmentStays(s: State, server: Id, busid: string, o: Options, a: Answers, ticks: seq<Tick>)
    requires Sound(s) && a.newId !in s.used && o.autoFailover
    requires DirectAttach(s, server, busid, o, a).1.DirectOk? && TicksFresh(DirectAttach(s, server, busid, o, a).0, ticks)
    ensures
      var t, end := DirectAttach(s, server, busid, o, a).0, AfterTicks(DirectAttach(s, server, busid, o, a).0, ticks);
      && a.newId in t.attachments.entries && a.newId in end.attachments.entries
      && SameSetup(t.attachments.entries[a.newId], end.attachments.entries[a.newId])
      && end.attachments.entries[a.newId].autoFailover
  {
    var t := DirectAttach(s, server, busid, o, a).0;
    DirectAttachKeeps(s, server, busid, o, a);
    UnusedIsAbsent(s, a.newId);
    FirstAtIsFound(a.fetch(0).scan, busid);
    var i :| FirstAt(a.fetch(0).scan, busid, i);
    DirectAttachExactly(s, server, busid, o, a, i);
    FailoverRecordStays(t, ticks, a.newId, |ticks|);
    assert ticks[..|ticks|] == ticks;
  }
}
