/**
 * client/app/groups.py and the handlers of client/app/main.py, each as a function from the stored state and the
 * answers of the outside world to the next state. `Client` (the class) is proved to compute these.
 */
module ClientState {
  import opened Text
  import opened OrderedDict
  import opened Devices
  import opened UsbipClient
  import opened Backoff

  datatype Server = Server(name: string, host: string)
  datatype Candidate = Candidate(server: Id, busid: string, title: string)
  datatype Group = Group(name: string, candidates: seq<Candidate>, autoFailover: bool, actions: seq<Action>)

  datatype Cause = SixFailures | BusyAtStartup

  /** What the process has done to the outside, or noted about it, oldest first. */
  datatype Effect =
    | ProcessStarted
    | AttemptFailed(id: Id, at: int)
    | Reattached(id: Id, at: int)
    | GroupAttached(id: Id, group: Id, candidate: nat)
    | AskedRebind(id: Id, server: Id, busid: string, why: Cause)

  /**
   * `startup` is `_startup_rebind_requested`; `file` is what the host's tmpfiles.d entry lists, by key.
   * `used` (every id ever generated) and `trace` are bookkeeping of the model.
   */
  datatype State = State(
    servers: map<Id, Server>, groups: map<Id, Group>, attachments: Dict<Record>,
    startup: set<Id>, file: map<Id, StableNode>, used: set<Id>, trace: seq<Effect>)

  ghost predicate Concerns(e: Effect, id: Id) {
    match e
    case ProcessStarted => false
    case AttemptFailed(i, _) => i == id
    case Reattached(i, _) => i == id
    case GroupAttached(i, _, _) => i == id
    case AskedRebind(i, _, _, _) => i == id
  }

  /** What a trace says of `id`. */
  ghost function Own(trace: seq<Effect>, id: Id): seq<Effect> {
    if trace == [] then []
    else Own(trace[..|trace| - 1], id) + (if Concerns(trace[|trace| - 1], id) then [trace[|trace| - 1]] else [])
  }

  /** What the trace of `t` says of `id` beyond that of `s`. */
  ghost function NewOwn(s: State, t: State, id: Id): seq<Effect> {
    if |Own(s.trace, id)| <= |Own(t.trace, id)| then Own(t.trace, id)[|Own(s.trace, id)|..] else []
  }

  lemma OwnSnoc(trace: seq<Effect>, e: Effect, id: Id)
    ensures Own(trace + [e], id) == Own(trace, id) + if Concerns(e, id) then [e] else []
  {
    assert (trace + [e])[..|trace|] == trace;
  }

  datatype Fetch = Unreachable | Listed(scan: Scan)

  /**
   * The answers one handler, or one visit of the watchdog, gets: the k-th device listing, the k-th attach, the
   * device node found afterwards, the clock, seconds since the process started and a generated id.
   */
  datatype Answers = Answers(
    now: int, uptime: int, newId: Id, fetch: nat -> Fetch, attach: nat -> Outcome, shareOk: bool, node: Option<StableNode>)

  // ------------------------------------------------------------- small helpers

  function LowerChar(c: char): char {
    if 'A' <= c <= 'Z' then ((c as int) - ('A' as int) + ('a' as int)) as char else c
  }

  function Lower(s: string): string {
    seq(|s|, i requires 0 <= i < |s| => LowerChar(s[i]))
  }

  /** `"busy" in error.lower()` */
  predicate IsBusyError(error: string) {
    exists i :: 0 <= i <= |error| && "busy" <= Lower(error)[i..]
  }

  /** The stable identity of an attachment: `att.get("group_id") or att_id`. */
  function Key(id: Id, r: Record): Id {
    if r.group.Some? then r.group.value else id
  }

  function FirstWhere(order: seq<Id>, p: Id -> bool): (r: Option<Id>)
    ensures r.Some? ==> r.value in order && p(r.value)
    ensures r.None? ==> forall x :: x in order ==> !p(x)
  {
    if order == [] then None else if p(order[0]) then Some(order[0]) else FirstWhere(order[1..], p)
  }

  function InGroup(d: Dict<Record>, g: Id): Id -> bool {
    id => id in d.entries && d.entries[id].group == Some(g)
  }

  /** `_active_attachment_for_group` */
  function ActiveFor(d: Dict<Record>, g: Id): Option<Id> {
    FirstWhere(d.order, InGroup(d, g))
  }

  function FirstDevice(scan: Scan, p: Device -> bool): (r: Option<Device>)
    ensures r.Some? ==> r.value in scan && p(r.value)
    ensures r.None? ==> forall d :: d in scan ==> !p(d)
  {
    if scan == [] then None else if p(scan[0]) then Some(scan[0]) else FirstDevice(scan[1..], p)
  }

  function AtBusid(busid: string): Device -> bool {
    (d: Device) => d.busid == busid
  }

  function MovedSerial(serial: string, oldBusid: string): Device -> bool {
    (d: Device) => d.serial == serial && d.busid != oldBusid
  }

  /** `_candidate_status`: the serial of an idle device at that busid. */
  function CandidateSerial(f: Fetch, busid: string): Option<string> {
    match f
    case Unreachable => None
    case Listed(scan) =>
      var d := FirstDevice(scan, AtBusid(busid));
      if d.Some? && d.value.status == SharedIdle then Some(d.value.serial) else None
  }

  /** `_find_relocated_busid` */
  function FindRelocated(f: Fetch, serial: string, oldBusid: string): Option<string> {
    if serial == "" || f.Unreachable? then None
    else
      var d := FirstDevice(f.scan, MovedSerial(serial, oldBusid));
      if d.Some? && d.value.status == SharedIdle then Some(d.value.busid) else None
  }

  // ------------------------------------------------- record updates and the node file

  /** `_persisted_nodes`: by key, a later record wins. */
  function PersistedNodes(d: Dict<Record>, order: seq<Id>): map<Id, StableNode> {
    if order == [] then map[]
    else
      var id := order[|order| - 1];
      var before := PersistedNodes(d, order[..|order| - 1]);
      if id in d.entries && d.entries[id].node.Some? then before[Key(id, d.entries[id]) := d.entries[id].node.value] else before
  }

  /** `sync_tmpfiles_conf` with the directory mounted and the write succeeding. */
  function Synced(s: State): State {
    s.(file := PersistedNodes(s.attachments, s.attachments.order))
  }

  /** `update_node_for_port`: nothing changes when there is no device node yet. */
  function NodeUpdated(s: State, id: Id, node: Option<StableNode>): State {
    if node.None? then s
    else if id in s.attachments.entries then
      Synced(s.(attachments := s.attachments.Put(id, s.attachments.entries[id].(node := node))))
    else Synced(s)
  }

  /** `_note_reconnect_failure` */
  function FailureNoted(s: State, id: Id, now: int): State {
    if id in s.attachments.entries then
      s.(attachments := s.attachments.Put(id, Bumped(s.attachments.entries[id], now)), trace := s.trace + [AttemptFailed(id, now)])
    else s
  }

  /** Its result: the new count, or 0 when the record is gone. */
  function FailureCount(s: State, id: Id): nat {
    if id in s.attachments.entries then s.attachments.entries[id].failures else 0
  }

  /** `_note_reconnect_success` */
  function SuccessNoted(s: State, id: Id): State {
    if id in s.attachments.entries then s.(attachments := s.attachments.Put(id, Cleared(s.attachments.entries[id]))) else s
  }

  /** `_maybe_force_rebind`: the record as read at the start decides, with the count just noted. */
  function RebindAsked(s: State, att: Record, id: Id, busid: string, count: nat, error: string, uptime: int): State {
    if !att.autoRebind then s
    else if count == REBIND_AFTER then s.(trace := s.trace + [AskedRebind(id, att.server, busid, SixFailures)])
    else if IsBusyError(error) && id !in s.startup && uptime < STARTUP_GRACE then
      s.(startup := s.startup + {id}, trace := s.trace + [AskedRebind(id, att.server, busid, BusyAtStartup)])
    else s
  }

  // ----------------------------------------------------------------- groups

  predicate Qualifies(servers: map<Id, Server>, c: Candidate, k: nat, a: Answers) {
    c.server in servers && CandidateSerial(a.fetch(k), c.busid).Some? && a.attach(k).Attached?
  }

  /** The candidate that gets attached: the first that qualifies, `|cs|` if none does. */
  function Choice(servers: map<Id, Server>, cs: seq<Candidate>, from: nat, a: Answers): (k: nat)
    requires from <= |cs|
    ensures from <= k <= |cs|
    ensures forall j :: from <= j < k ==> !Qualifies(servers, cs[j], j, a)
    ensures k < |cs| ==> Qualifies(servers, cs[k], k, a)
    decreases |cs| - from
  {
    if from == |cs| || Qualifies(servers, cs[from], from, a) then from else Choice(servers, cs, from + 1, a)
  }

  datatype GroupResult = UnknownGroup | AlreadyAttached | NoCandidate | GroupOk(id: Id, candidate: nat)

  function GroupRecord(g: Id, group: Group, c: Candidate, serial: string, got: Outcome, now: int): Record
    requires got.Attached?
  {
    Record(c.server, c.busid, serial, if c.title != "" then c.title else group.name, Some(g), now,
           group.autoFailover, false, [], got.port, Some(got.local), 0, None, None, None)
  }

  /** The new record, and what follows once it is stored. */
  function GroupPut(s: State, g: Id, group: Group, c: Candidate, k: nat, serial: string, a: Answers): State
    requires a.attach(k).Attached?
  {
    NodeUpdated(
      s.(attachments := s.attachments.Put(a.newId, GroupRecord(g, group, c, serial, a.attach(k), a.now)),
         used := s.used + {a.newId}, trace := s.trace + [GroupAttached(a.newId, g, k)]),
      a.newId, a.node)
  }

  /** What the handler stores for candidate `k`. */
  function GroupStored(s: State, g: Id, k: nat, a: Answers): State
    requires g in s.groups && k < |s.groups[g].candidates| && Qualifies(s.servers, s.groups[g].candidates[k], k, a)
  {
    var c := s.groups[g].candidates[k];
    GroupPut(s, g, s.groups[g], c, k, CandidateSerial(a.fetch(k), c.busid).value, a)
  }

  /** `attach_group` */
  function GroupAttach(s: State, g: Id, a: Answers): (State, GroupResult) {
    if g !in s.groups then (s, UnknownGroup)
    else if ActiveFor(s.attachments, g).Some? then (s, AlreadyAttached)
    else
      var k := Choice(s.servers, s.groups[g].candidates, 0, a);
      if k == |s.groups[g].candidates| then (s, NoCandidate)
      else (GroupStored(s, g, k, a), GroupOk(a.newId, k))
  }

  /** `detach_group`; `ok` is the detach command. It detaches by port number alone. */
  function GroupDetach(s: State, g: Id, ok: bool): State {
    match ActiveFor(s.attachments, g)
    case None => s
    case Some(id) => if ok then Synced(s.(attachments := s.attachments.Pop(id))) else s
  }

  // ---------------------------------------------------- restoring an attachment

  datatype Restored = GaveUp | Failed | Back

  /** A direct attachment back at `busid`. */
  function DirectBack(s: State, id: Id, att: Record, busid: string, got: Outcome, a: Answers): State
    requires got.Attached?
  {
    var r := att.(busid := busid, attachedAt := a.now, port := got.port, local := Some(got.local));
    var stored := s.(attachments := s.attachments.Put(id, r), trace := s.trace + [Reattached(id, a.now)]);
    NodeUpdated(SuccessNoted(stored, id), id, a.node)
  }

  function DirectFailed(s: State, id: Id, att: Record, busid: string, error: string, a: Answers): State {
    var noted := FailureNoted(s, id, a.now);
    RebindAsked(noted, att, id, busid, FailureCount(noted, id), error, a.uptime)
  }

  /** What follows the refusal of the first attach: look for the serial elsewhere and try once more. */
  function DirectRetry(s: State, id: Id, att: Record, error: string, a: Answers): (State, Restored) {
    match FindRelocated(a.fetch(0), att.serial, att.busid)
    case None => (DirectFailed(s, id, att, att.busid, error, a), Failed)
    case Some(elsewhere) => match a.attach(1)
      case CommandError(error2) => (DirectFailed(s, id, att, elsewhere, error2, a), Failed)
      case Attached(_, _) => (DirectBack(s, id, att, elsewhere, a.attach(1), a), Back)
  }

  function RestoreDirect(s: State, id: Id, att: Record, a: Answers): (State, Restored) {
    if att.server !in s.servers then (FailureNoted(s, id, a.now), Failed)
    else match a.attach(0)
      case CommandError(error) => DirectRetry(s, id, att, error, a)
      case Attached(_, _) => (DirectBack(s, id, att, att.busid, a.attach(0), a), Back)
  }

  function RestoreGroup(s: State, id: Id, att: Record, a: Answers): (State, Restored)
    requires att.group.Some?
  {
    var popped := s.(attachments := s.attachments.Pop(id));
    var (after, result) := GroupAttach(popped, att.group.value, a);
    if result.GroupOk? then (after, Back)
    else (FailureNoted(after.(attachments := after.attachments.Put(id, att)), id, a.now), Failed)
  }

  /** `_restore_dropped_attachment`, given the record as the caller read it. */
  function Restore(s: State, id: Id, att: Record, a: Answers): (State, Restored) {
    if !att.autoFailover then (s.(attachments := s.attachments.Pop(id)), GaveUp)
    else if att.group.Some? then RestoreGroup(s, id, att, a)
    else RestoreDirect(s, id, att, a)
  }

  // --------------------------------------------------------- watchdog and push

  /** One entry of the tick's snapshot. */
  function Visited(s: State, id: Id, att: Record, live: map<Port, string>, a: Answers): State {
    if IsLive(att, live) || ShouldSkip(att, a.now) then s else Restore(s, id, att, a).0
  }

  /** The rest of a tick: entries `from` on of the snapshot, `answers` by attachment id. */
  function TickFrom(s: State, snap: Dict<Record>, from: nat, live: map<Port, string>, answers: Id -> Answers): State
    requires snap.Valid() && from <= |snap.order|
    decreases |snap.order| - from
  {
    if from == |snap.order| then s
    else
      var id := snap.order[from];
      TickFrom(Visited(s, id, snap.entries[id], live, answers(id)), snap, from + 1, live, answers)
  }

  /** `_watchdog_tick` */
  function Ticked(s: State, live: map<Port, string>, answers: Id -> Answers): State
    requires s.attachments.Valid()
  {
    TickFrom(s, s.attachments, 0, live, answers)
  }

  function AtServerBusid(d: Dict<Record>, server: Id, busid: string): Id -> bool {
    id => id in d.entries && d.entries[id].server == server && d.entries[id].busid == busid
  }

  /** The serial fallback takes the first record of that device that does not look live. */
  function AtServerSerial(d: Dict<Record>, server: Id, serial: string, live: map<Port, string>): Id -> bool {
    id => id in d.entries && d.entries[id].server == server && d.entries[id].serial == serial && !IsLive(d.entries[id], live)
  }

  /** `detached` is the port the push detaches first, if any. */
  datatype PushResult = PushResult(after: State, detached: Option<Port>, restored: Option<Restored>)

  /** `reconnect_device` */
  function Pushed(s: State, server: Id, busid: string, serial: string, live: map<Port, string>, a: Answers): PushResult {
    var direct := FirstWhere(s.attachments.order, AtServerBusid(s.attachments, server, busid));
    if direct.Some? then
      var id := direct.value;
      var att := s.attachments.entries[id];
      var (after, restored) := Restore(s, id, att, a);
      PushResult(after, if IsLive(att, live) then Some(att.port) else None, Some(restored))
    else if serial == "" then PushResult(s, None, None)
    else
      var moved := FirstWhere(s.attachments.order, AtServerSerial(s.attachments, server, serial, live));
      if moved.None? then PushResult(s, None, None)
      else
        var id := moved.value;
        var att := s.attachments.entries[id].(busid := busid);
        var (after, restored) := Restore(s.(attachments := s.attachments.Put(id, att)), id, att, a);
        PushResult(after, None, Some(restored))
  }

  // ------------------------------------------------------------ web handlers

  datatype Options = Options(title: string, autoFailover: bool, autoRebind: bool, actions: seq<Action>)

  datatype DirectResult = UnknownServer | ServerUnreachable | NoSuchDevice | InUse | ShareFailed | AttachFailed | DirectOk(id: Id)

  function DirectRecord(server: Id, d: Device, o: Options, got: Outcome, now: int): Record
    requires got.Attached?
  {
    Record(server, d.busid, d.serial, if o.title != "" then o.title else d.title, None, now,
           o.autoFailover, o.autoRebind, o.actions, got.port, Some(got.local), 0, None, None, None)
  }

  function DirectStored(s: State, server: Id, d: Device, o: Options, got: Outcome, a: Answers): State
    requires got.Attached?
  {
    NodeUpdated(
      s.(attachments := s.attachments.Put(a.newId, DirectRecord(server, d, o, got, a.now)), used := s.used + {a.newId}),
      a.newId, a.node)
  }

  /** `api_direct_attach` */
  function DirectAttach(s: State, server: Id, busid: string, o: Options, a: Answers): (State, DirectResult) {
    if server !in s.servers then (s, UnknownServer)
    else match a.fetch(0)
      case Unreachable => (s, ServerUnreachable)
      case Listed(scan) => match FirstDevice(scan, AtBusid(busid))
        case None => (s, NoSuchDevice)
        case Some(d) =>
          if d.status == SharedInUse then (s, InUse)
          else if d.status == Unshared && !a.shareOk then (s, ShareFailed)
          else if a.attach(0).CommandError? then (s, AttachFailed)
          else (DirectStored(s, server, d, o, a.attach(0), a), DirectOk(a.newId))
  }

  /** `api_detach` */
  function Detached(s: State, id: Id, ok: bool): State {
    if id in s.attachments.entries && ok then Synced(s.(attachments := s.attachments.Pop(id))) else s
  }

  /** `api_update_attachment` */
  function Edited(s: State, id: Id, o: Options): State {
    if id in s.attachments.entries then
      s.(attachments := s.attachments.Put(id, s.attachments.entries[id].(
        title := o.title, autoFailover := o.autoFailover, autoRebind := o.autoRebind, actions := o.actions)))
    else s
  }

  function ServerAdded(s: State, id: Id, server: Server): State {
    s.(servers := s.servers[id := server], used := s.used + {id})
  }

  function ServerUpdated(s: State, id: Id, server: Server): State {
    if id in s.servers then s.(servers := s.servers[id := server]) else s
  }

  predicate ServerInUse(d: Dict<Record>, server: Id) {
    exists id :: id in d.entries && d.entries[id].server == server
  }

  /** `api_delete_server`: refused while any attachment refers to it. */
  function ServerDeleted(s: State, id: Id): State {
    if ServerInUse(s.attachments, id) then s else s.(servers := s.servers - {id})
  }

  predicate GroupIsValid(s: State, group: Group) {
    group.name != "" && group.candidates != [] && forall i :: 0 <= i < |group.candidates| ==> group.candidates[i].server in s.servers
  }

  function GroupCreated(s: State, id: Id, group: Group): State {
    if GroupIsValid(s, group) then s.(groups := s.groups[id := group], used := s.used + {id}) else s
  }

  predicate GroupInUse(d: Dict<Record>, g: Id) {
    exists id :: id in d.entries && d.entries[id].group == Some(g)
  }

  function GroupUpdated(s: State, id: Id, group: Group): State {
    if id in s.groups && !GroupInUse(s.attachments, id) && GroupIsValid(s, group) then s.(groups := s.groups[id := group]) else s
  }

  function GroupDeleted(s: State, id: Id): State {
    if GroupInUse(s.attachments, id) then s else s.(groups := s.groups - {id})
  }

  /** `restore_persisted_nodes` over the records `order`: live ports get their node refreshed. */
  function NodesRefreshed(s: State, order: seq<Id>, live: map<Port, string>, nodes: Id -> Option<StableNode>): State {
    if order == [] then s
    else
      var before := NodesRefreshed(s, order[..|order| - 1], live, nodes);
      var id := order[|order| - 1];
      if id in s.attachments.entries && s.attachments.entries[id].port in live then NodeUpdated(before, id, nodes(id)) else before
  }

  /** The process starts (again): the one-shot set is empty, nodes are refreshed and the file rewritten. */
  function Started(s: State, live: map<Port, string>, nodes: Id -> Option<StableNode>): State {
    var begun := s.(startup := {}, trace := s.trace + [ProcessStarted]);
    Synced(NodesRefreshed(begun, s.attachments.order, live, nodes))
  }

  // ------------------------------------------------- runs of atomic handlers

  datatype Event =
    | EDirectAttach(server: Id, busid: string, options: Options, a: Answers)
    | EGroupAttach(group: Id, a: Answers)
    | EGroupDetach(group: Id, ok: bool)
    | EDetach(id: Id, ok: bool)
    | EEdit(id: Id, options: Options)
    | EServerAdd(id: Id, newServer: Server)
    | EServerUpdate(id: Id, newServer: Server)
    | EServerDelete(id: Id)
    | EGroupCreate(id: Id, newGroup: Group)
    | EGroupUpdate(id: Id, newGroup: Group)
    | EGroupDelete(id: Id)
    | ETick(live: map<Port, string>, answers: Id -> Answers)
    | EPush(server: Id, busid: string, serial: string, live: map<Port, string>, a: Answers)
    | EStart(live: map<Port, string>, nodes: Id -> Option<StableNode>)

  function After(s: State, e: Event): State
    requires s.attachments.Valid()
  {
    match e
    case EDirectAttach(server, busid, options, a) => DirectAttach(s, server, busid, options, a).0
    case EGroupAttach(g, a) => GroupAttach(s, g, a).0
    case EGroupDetach(g, ok) => GroupDetach(s, g, ok)
    case EDetach(id, ok) => Detached(s, id, ok)
    case EEdit(id, options) => Edited(s, id, options)
    case EServerAdd(id, server) => ServerAdded(s, id, server)
    case EServerUpdate(id, server) => ServerUpdated(s, id, server)
    case EServerDelete(id) => ServerDeleted(s, id)
    case EGroupCreate(id, group) => GroupCreated(s, id, group)
    case EGroupUpdate(id, group) => GroupUpdated(s, id, group)
    case EGroupDelete(id) => GroupDeleted(s, id)
    case ETick(live, answers) => Ticked(s, live, answers)
    case EPush(server, busid, serial, live, a) => Pushed(s, server, busid, serial, live, a).after
    case EStart(live, nodes) => Started(s, live, nodes)
  }
}
