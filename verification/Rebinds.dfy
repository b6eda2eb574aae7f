/** How often a client may force a rebind on a server: counted over the trace of every run of atomic handlers. */
module Rebinds {
  import opened Text
  import opened OrderedDict
  import opened UsbipClient
  import opened Backoff
  import opened ClientState
  import opened Registry
  import opened Runs
  import opened Attention

  /** Six-failure rebinds asked for `id` since it was last reattached. */
  ghost function SixSince(trace: seq<Effect>, id: Id): nat {
    if trace == [] then 0
    else
      var before := SixSince(trace[..|trace| - 1], id);
      match trace[|trace| - 1]
      case Reattached(i, _) => if i == id then 0 else before
      case AskedRebind(i, _, _, why) => if i == id && why.SixFailures? then before + 1 else before
      case _ => before
  }

  /** Startup rebinds asked for `id` since the process started; reattaching does not reset it. */
  ghost function StartupSince(trace: seq<Effect>, id: Id): nat {
    if trace == [] then 0
    else
      var before := StartupSince(trace[..|trace| - 1], id);
      match trace[|trace| - 1]
      case ProcessStarted => 0
      case AskedRebind(i, _, _, why) => if i == id && why.BusyAtStartup? then before + 1 else before
      case _ => before
  }

  /** All rebinds asked for `id` since it was last reattached or the process last started. */
  ghost function AsksSince(trace: seq<Effect>, id: Id): nat {
    if trace == [] then 0
    else
      var before := AsksSince(trace[..|trace| - 1], id);
      match trace[|trace| - 1]
      case ProcessStarted => 0
      case Reattached(i, _) => if i == id then 0 else before
      case AskedRebind(i, _, _, _) => if i == id then before + 1 else before
      case _ => before
  }

  /** All rebinds asked for `id` since it was last reattached, however often the process has started since. */
  ghost function AsksSinceBack(trace: seq<Effect>, id: Id): nat {
    if trace == [] then 0
    else
      var before := AsksSinceBack(trace[..|trace| - 1], id);
      match trace[|trace| - 1]
      case Reattached(i, _) => if i == id then 0 else before
      case AskedRebind(i, _, _, _) => if i == id then before + 1 else before
      case _ => before
  }

  /** The startup rebinds among them. */
  ghost function StartupsSinceBack(trace: seq<Effect>, id: Id): nat {
    if trace == [] then 0
    else
      var before := StartupsSinceBack(trace[..|trace| - 1], id);
      match trace[|trace| - 1]
      case Reattached(i, _) => if i == id then 0 else before
      case AskedRebind(i, _, _, why) => if i == id && why.BusyAtStartup? then before + 1 else before
      case _ => before
  }

  /** How often the process has started since `id` was last reattached. */
  ghost function StartsSinceBack(trace: seq<Effect>, id: Id): nat {
    if trace == [] then 0
    else
      var before := StartsSinceBack(trace[..|trace| - 1], id);
      match trace[|trace| - 1]
      case ProcessStarted => before + 1
      case Reattached(i, _) => if i == id then 0 else before
      case _ => before
  }

  lemma {:induction false} AsksAreOfTwoKinds(trace: seq<Effect>, id: Id)
    ensures AsksSince(trace, id) <= SixSince(trace, id) + StartupSince(trace, id)
    ensures AsksSinceBack(trace, id) == SixSince(trace, id) + StartupsSinceBack(trace, id)
  {
    if trace != [] { AsksAreOfTwoKinds(trace[..|trace| - 1], id); }
  }

  /** What the counts rest on: six failures stay counted until a success, and the one-shot set remembers. */
  ghost predicate Bounded(s: State) {
    forall id :: Rationed(s, id)
  }

  ghost predicate Rationed(s: State, id: Id) {
    && SixSince(s.trace, id) <= 1
    && StartupSince(s.trace, id) <= 1
    && StartupsSinceBack(s.trace, id) <= StartsSinceBack(s.trace, id) + StartupSince(s.trace, id)
    && (SixSince(s.trace, id) == 1 ==> id in s.used)
    && (SixSince(s.trace, id) == 1 && id in s.attachments.entries ==> s.attachments.entries[id].failures >= REBIND_AFTER)
    && (StartupSince(s.trace, id) == 1 ==> id in s.startup)
  }

  /** Nothing asked: each record is an old one with no fewer failures, or new. */
  ghost predicate Quiet(s: State, t: State) {
    && t.trace == s.trace && s.startup <= t.startup && s.used <= t.used
    && forall id :: id in t.attachments.entries ==>
         (id in s.attachments.entries && s.attachments.entries[id].failures <= t.attachments.entries[id].failures) || id !in s.used
  }

  lemma QuietKeeps(s: State, t: State)
    requires Bounded(s) && Quiet(s, t)
    ensures Bounded(t)
  {
    forall id
      ensures Rationed(t, id)
    {
      assert Rationed(s, id);
    }
  }

  lemma Appended(trace: seq<Effect>, e: Effect, id: Id)
    ensures SixSince(trace + [e], id) == match e
      case Reattached(i, _) => if i == id then 0 else SixSince(trace, id)
      case AskedRebind(i, _, _, why) => if i == id && why.SixFailures? then SixSince(trace, id) + 1 else SixSince(trace, id)
      case _ => SixSince(trace, id)
    ensures StartupSince(trace + [e], id) == match e
      case ProcessStarted => 0
      case AskedRebind(i, _, _, why) => if i == id && why.BusyAtStartup? then StartupSince(trace, id) + 1 else StartupSince(trace, id)
      case _ => StartupSince(trace, id)
    ensures StartupsSinceBack(trace + [e], id) == match e
      case Reattached(i, _) => if i == id then 0 else StartupsSinceBack(trace, id)
      case AskedRebind(i, _, _, why) => if i == id && why.BusyAtStartup? then StartupsSinceBack(trace, id) + 1 else StartupsSinceBack(trace, id)
      case _ => StartupsSinceBack(trace, id)
    ensures StartsSinceBack(trace + [e], id) == match e
      case ProcessStarted => StartsSinceBack(trace, id) + 1
      case Reattached(i, _) => if i == id then 0 else StartsSinceBack(trace, id)
      case _ => StartsSinceBack(trace, id)
  {
    assert (trace + [e])[..|trace|] == trace;
  }

  /** Failures and group attaches ask for nothing. */
  lemma NeutralKeeps(s: State, e: Effect)
    requires Bounded(s) && (e.AttemptFailed? || e.GroupAttached?)
    ensures Bounded(s.(trace := s.trace + [e]))
  {
    forall id
      ensures Rationed(s.(trace := s.trace + [e]), id)
    {
      assert Rationed(s, id);
      Appended(s.trace, e, id);
    }
  }

  lemma NodeUpdateKeepsBound(s: State, id: Id, node: Option<StableNode>)
    requires Bounded(s)
    ensures Bounded(NodeUpdated(s, id, node))
  {
    NodeUpdateFrame(s, id, node);
    var t := NodeUpdated(s, id, node);
    forall j | j in t.attachments.entries
      ensures j in s.attachments.entries && s.attachments.entries[j].failures <= t.attachments.entries[j].failures
    {
      assert j == id || t.attachments.entries[j] == s.attachments.entries[j];
    }
    QuietKeeps(s, t);
  }

  lemma FailureKeepsBound(s: State, id: Id, now: int)
    requires Bounded(s)
    ensures Bounded(FailureNoted(s, id, now))
  {
    if id in s.attachments.entries {
      NeutralKeeps(s, AttemptFailed(id, now));
      QuietKeeps(s.(trace := s.trace + [AttemptFailed(id, now)]), FailureNoted(s, id, now));
    }
  }

  lemma DirectFailedKeepsBound(s: State, id: Id, att: Record, busid: string, error: string, a: Answers)
    requires Bounded(s) && id in s.used
    ensures Bounded(DirectFailed(s, id, att, busid, error, a))
  {
    var noted := FailureNoted(s, id, a.now);
    FailureKeepsBound(s, id, a.now);
    assert Rationed(s, id);
    Appended(s.trace, AttemptFailed(id, a.now), id);
    AskKeepsBound(noted, att, id, busid, error, a.uptime);
  }

  /** The count passes six only once between two successes, and the one-shot set lets one startup rebind through. */
  lemma AskKeepsBound(s: State, att: Record, id: Id, busid: string, error: string, uptime: int)
    requires Bounded(s) && id in s.used
    requires FailureCount(s, id) == REBIND_AFTER ==> SixSince(s.trace, id) == 0
    ensures Bounded(RebindAsked(s, att, id, busid, FailureCount(s, id), error, uptime))
  {
    var t := RebindAsked(s, att, id, busid, FailureCount(s, id), error, uptime);
    if t != s {
      var ask := t.trace[|t.trace| - 1];
      assert t.trace == s.trace + [ask];
      forall j
        ensures Rationed(t, j)
      {
        assert Rationed(s, j);
        Appended(s.trace, ask, j);
      }
    }
  }

  lemma DirectBackKeepsBound(s: State, id: Id, att: Record, busid: string, got: Outcome, a: Answers)
    requires Bounded(s) && got.Attached?
    ensures Bounded(DirectBack(s, id, att, busid, got, a))
  {
    DirectBackStored(s, id, att, busid, got, a);
    var back := Reattached(id, a.now);
    var t := s.(attachments := s.attachments.Put(id, BackRecord(att, busid, got, a.now)), trace := s.trace + [back]);
    forall j
      ensures Rationed(t, j)
    {
      assert Rationed(s, j);
      Appended(s.trace, back, j);
    }
    NodeUpdateKeepsBound(t, id, a.node);
  }

  lemma RestoreDirectKeepsBound(s: State, id: Id, att: Record, a: Answers)
    requires Bounded(s) && id in s.attachments.entries && id in s.used
    ensures Bounded(RestoreDirect(s, id, att, a).0)
  {
    if att.server !in s.servers {
      FailureKeepsBound(s, id, a.now);
    } else {
      match a.attach(0)
      case Attached(_, _) => DirectBackKeepsBound(s, id, att, att.busid, a.attach(0), a);
      case CommandError(error) =>
        match FindRelocated(a.fetch(0), att.serial, att.busid)
        case None => DirectFailedKeepsBound(s, id, att, att.busid, error, a);
        case Some(elsewhere) =>
          match a.attach(1)
          case Attached(_, _) => DirectBackKeepsBound(s, id, att, elsewhere, a.attach(1), a);
          case CommandError(error2) => DirectFailedKeepsBound(s, id, att, elsewhere, error2, a);
    }
  }

  lemma GroupStoredKeepsBound(s: State, g: Id, k: nat, a: Answers)
    requires Bounded(s) && a.newId !in s.used
    requires g in s.groups && k < |s.groups[g].candidates| && Qualifies(s.servers, s.groups[g].candidates[k], k, a)
    ensures Bounded(GroupStored(s, g, k, a))
  {
    var c := s.groups[g].candidates[k];
    GroupPutKeepsBound(s, g, s.groups[g], c, k, CandidateSerial(a.fetch(k), c.busid).value, a);
  }

  lemma GroupPutKeepsBound(s: State, g: Id, group: Group, c: Candidate, k: nat, serial: string, a: Answers)
    requires Bounded(s) && a.newId !in s.used && a.attach(k).Attached?
    ensures Bounded(GroupPut(s, g, group, c, k, serial, a))
  {
    var r := GroupRecord(g, group, c, serial, a.attach(k), a.now);
    var attached := GroupAttached(a.newId, g, k);
    NeutralKeeps(s, attached);
    var put := s.(attachments := s.attachments.Put(a.newId, r), used := s.used + {a.newId}, trace := s.trace + [attached]);
    QuietKeeps(s.(trace := s.trace + [attached]), put);
    NodeUpdateKeepsBound(put, a.newId, a.node);
  }

  lemma PoppingKeepsBound(s: State, id: Id)
    requires Bounded(s)
    ensures Bounded(s.(attachments := s.attachments.Pop(id)))
  {
    QuietKeeps(s, s.(attachments := s.attachments.Pop(id)));
  }

  lemma RestoreGroupKeepsBound(s: State, id: Id, att: Record, a: Answers)
    requires Bounded(s) && a.newId !in s.used && att.group.Some?
    requires id in s.attachments.entries && s.attachments.entries[id] == att
    ensures Bounded(RestoreGroup(s, id, att, a).0)
  {
    var popped := s.(attachments := s.attachments.Pop(id));
    var (after, result) := GroupAttach(popped, att.group.value, a);
    if result.GroupOk? {
      PoppingKeepsBound(s, id);
      GroupAttachKeepsBound(popped, att.group.value, a);
    } else {
      assert after == popped;
      PutBackKeepsBound(s, id, att, a.now);
    }
  }

  lemma GroupAttachKeepsBound(s: State, g: Id, a: Answers)
    requires Bounded(s) && a.newId !in s.used
    ensures Bounded(GroupAttach(s, g, a).0)
  {
    var (t, r) := GroupAttach(s, g, a);
    if r.GroupOk? { GroupStoredKeepsBound(s, g, r.candidate, a); }
  }

  lemma PutBackKeepsBound(s: State, id: Id, att: Record, now: int)
    requires Bounded(s) && id in s.attachments.entries && s.attachments.entries[id] == att
    ensures Bounded(FailureNoted(s.(attachments := s.attachments.Pop(id).Put(id, att)), id, now))
  {
    var again := s.(attachments := s.attachments.Pop(id).Put(id, att));
    QuietKeeps(s, again);
    FailureKeepsBound(again, id, now);
  }

  lemma RestoreKeepsBound(s: State, id: Id, att: Record, a: Answers)
    requires Bounded(s) && Restorable(s, id, att, a)
    ensures Bounded(Restore(s, id, att, a).0)
  {
    if !att.autoFailover {
      PoppingKeepsBound(s, id);
    } else if att.group.Some? {
      RestoreGroupKeepsBound(s, id, att, a);
    } else {
      RestoreDirectKeepsBound(s, id, att, a);
    }
  }

  lemma VisitKeepsBound(s: State, id: Id, att: Record, live: map<Port, string>, a: Answers)
    requires Bounded(s) && Restorable(s, id, att, a)
    ensures Bounded(Visited(s, id, att, live, a))
  {
    RestoreKeepsBound(s, id, att, a);
  }

  lemma {:induction false} TickKeepsBound(s: State, snap: Dict<Record>, from: nat, live: map<Port, string>, answers: Id -> Answers)
    requires TickPre(s, snap, from, answers) && Bounded(s)
    ensures Bounded(TickFrom(s, snap, from, live, answers))
    decreases |snap.order| - from
  {
    if from < |snap.order| {
      var id := snap.order[from];
      var t := Visited(s, id, snap.entries[id], live, answers(id));
      VisitKeepsBound(s, id, snap.entries[id], live, answers(id));
      TickPreStep(s, snap, from, live, answers);
      TickUnfolds(s, snap, from, live, answers, t);
      TickKeepsBound(t, snap, from + 1, live, answers);
    }
  }

  lemma PushKeepsBound(s: State, server: Id, busid: string, serial: string, live: map<Port, string>, a: Answers)
    requires Sound(s) && Bounded(s) && a.newId !in s.used
    ensures Bounded(Pushed(s, server, busid, serial, live, a).after)
  {
    var direct := FirstWhere(s.attachments.order, AtServerBusid(s.attachments, server, busid));
    if direct.Some? {
      RestoreKeepsBound(s, direct.value, s.attachments.entries[direct.value], a);
    } else if serial != "" {
      var moved := FirstWhere(s.attachments.order, AtServerSerial(s.attachments, server, serial, live));
      if moved.Some? { MovedKeepsBound(s, moved.value, s.attachments.entries[moved.value], busid, a); }
    }
  }

  lemma MovedKeepsBound(s: State, id: Id, att: Record, busid: string, a: Answers)
    requires Bounded(s) && Restorable(s, id, att, a)
    ensures Bounded(Restore(s.(attachments := s.attachments.Put(id, att.(busid := busid))), id, att.(busid := busid), a).0)
  {
    var t := s.(attachments := s.attachments.Put(id, att.(busid := busid)));
    ReplacementIsSound(s, id, att, att.(busid := busid));
    QuietKeeps(s, t);
    RestoreKeepsBound(t, id, att.(busid := busid), a);
  }

  lemma {:induction false} RefreshKeepsBound(s: State, order: seq<Id>, live: map<Port, string>, nodes: Id -> Option<StableNode>)
    requires Bounded(s)
    ensures Bounded(NodesRefreshed(s, order, live, nodes))
  {
    if order != [] {
      var init := order[..|order| - 1];
      RefreshKeepsBound(s, init, live, nodes);
      NodeUpdateKeepsBound(NodesRefreshed(s, init, live, nodes), order[|order| - 1], nodes(order[|order| - 1]));
    }
  }

  lemma StartKeepsBound(s: State, live: map<Port, string>, nodes: Id -> Option<StableNode>)
    requires Bounded(s)
    ensures Bounded(Started(s, live, nodes))
  {
    var begun := s.(startup := {}, trace := s.trace + [ProcessStarted]);
    forall id
      ensures Rationed(begun, id)
    {
      assert Rationed(s, id);
      Appended(s.trace, ProcessStarted, id);
    }
    RefreshKeepsBound(begun, s.attachments.order, live, nodes);
    QuietKeeps(NodesRefreshed(begun, s.attachments.order, live, nodes), Started(s, live, nodes));
  }

  lemma DirectAttachKeepsBound(s: State, server: Id, busid: string, o: Options, a: Answers)
    requires Bounded(s) && a.newId !in s.used
    ensures Bounded(DirectAttach(s, server, busid, o, a).0)
  {
    var (t, r) := DirectAttach(s, server, busid, o, a);
    if r.DirectOk? {
      var d := FirstDevice(a.fetch(0).scan, AtBusid(busid)).value;
      var put := Stored(s, a.newId, DirectRecord(server, d, o, a.attach(0), a.now));
      QuietKeeps(s, put);
      NodeUpdateKeepsBound(put, a.newId, a.node);
    }
  }

  lemma RemovalKeepsBound(s: State, id: Id)
    requires Bounded(s)
    ensures Bounded(Synced(s.(attachments := s.attachments.Pop(id))))
  {
    QuietKeeps(s, Synced(s.(attachments := s.attachments.Pop(id))));
  }

  lemma DetachKeepsBound(s: State, e: Event)
    requires s.attachments.Valid() && Bounded(s) && (e.EGroupDetach? || e.EDetach?)
    ensures Bounded(After(s, e))
  {
    match e
    case EDetach(id, _) => RemovalKeepsBound(s, id);
    case EGroupDetach(g, _) =>
      if ActiveFor(s.attachments, g).Some? { RemovalKeepsBound(s, ActiveFor(s.attachments, g).value); }
  }

  lemma EditKeepsBound(s: State, e: Event)
    requires s.attachments.Valid() && Bounded(s)
    requires e.EEdit? || e.EServerAdd? || e.EServerUpdate? || e.EServerDelete? || e.EGroupCreate? || e.EGroupUpdate? || e.EGroupDelete?
    ensures Bounded(After(s, e))
  {
    assert Quiet(s, After(s, e));
    QuietKeeps(s, After(s, e));
  }

  lemma HandlerKeepsBound(s: State, e: Event)
    requires Sound(s) && Bounded(s) && EventFresh(s, e)
    ensures Bounded(After(s, e))
  {
    match e
    case EDirectAttach(server, busid, o, a) => DirectAttachKeepsBound(s, server, busid, o, a);
    case EGroupAttach(g, a) => GroupAttachKeepsBound(s, g, a);
    case ETick(live, answers) => TickKeepsBound(s, s.attachments, 0, live, answers);
    case EPush(server, busid, serial, live, a) => PushKeepsBound(s, server, busid, serial, live, a);
    case EStart(live, nodes) => StartKeepsBound(s, live, nodes);
    case EGroupDetach(_, _) => DetachKeepsBound(s, e);
    case EDetach(_, _) => DetachKeepsBound(s, e);
    case _ => EditKeepsBound(s, e);
  }

  /**
   * Over every run: since its last successful reconnect an attachment has asked for at most one rebind by the
   * six-failure rule, since the process started at most one by the startup rule; so since that reconnect at most two
   * in all, and one more for each start of the process in between.
   */
  lemma {:induction false} RebindsAreRationed(s: State, es: seq<Event>, id: Id)
    requires Sound(s) && Bounded(s) && RunFresh(s, es)
    ensures
      var trace := AfterRun(s, es).trace;
      && SixSince(trace, id) <= 1 && StartupSince(trace, id) <= 1 && AsksSince(trace, id) <= 2
      && AsksSinceBack(trace, id) <= 2 + StartsSinceBack(trace, id)
    decreases |es|
  {
    if es != [] {
      HandlerKeepsSound(s, es[0]);
      HandlerKeepsBound(s, es[0]);
      RebindsAreRationed(After(s, es[0]), es[1..], id);
    } else {
      assert Rationed(s, id);
      AsksAreOfTwoKinds(s.trace, id);
    }
  }

  /** The first state of a new installation starts such a run. */
  lemma NothingAskedAtFirst()
    ensures Bounded(FirstState())
  {
  }
}
