/** No attachment is abandoned: what a tick does to each record of its snapshot, and when it next tries. */
module Attention {
  import opened Text
  import opened OrderedDict
  import opened UsbipClient
  import opened Backoff
  import opened ClientState
  import opened Registry
  import opened Runs

  // ------------------------------------------------ what concerns one attachment

  ghost predicate Untouched(t: State, id: Id, att: Record) {
    id in t.attachments.entries && t.attachments.entries[id] == att
  }

  /** From `s` to `t` nothing happens that concerns `id`. */
  ghost predicate Beside(s: State, t: State, id: Id) {
    && t.servers == s.servers && t.groups == s.groups && s.used <= t.used
    && Own(t.trace, id) == Own(s.trace, id)
    && (id in t.startup <==> id in s.startup)
    && (if id in s.attachments.entries then Untouched(t, id, s.attachments.entries[id]) else id !in t.attachments.entries)
  }

  ghost predicate AllBeside(s: State, t: State, ids: set<Id>) {
    forall id :: id in ids ==> Beside(s, t, id)
  }

  /** The attempt of `id` failed just now: that, and perhaps a request for a rebind where it failed, is all that happened to it. */
  ghost predicate NotesFailure(effects: seq<Effect>, id: Id, att: Record, a: Answers) {
    && 1 <= |effects| <= 2 && effects[0] == AttemptFailed(id, a.now)
    && (|effects| == 2 ==> AsksForRefused(effects[1], id, att, a))
  }

  /** `att` was tried and its attachment is back: a direct one in place, a group's under an id not used before. */
  ghost predicate Back(s: State, t: State, id: Id, att: Record, a: Answers) {
    if att.group.None? then
      && id in t.attachments.entries && IsReconnected(t.attachments.entries[id], att, a)
      && NewOwn(s, t, id) == [Reattached(id, a.now)]
    else
      id !in t.attachments.entries && exists j :: j in t.attachments.entries && BackUnder(s, t, att, j)
  }

  ghost predicate BackUnder(s: State, t: State, att: Record, j: Id)
    requires j in t.attachments.entries
  {
    && j !in s.used && t.attachments.entries[j].group == att.group && t.attachments.entries[j].failures == 0
    && |NewOwn(s, t, j)| == 1 && NewOwn(s, t, j)[0].GroupAttached? && Some(NewOwn(s, t, j)[0].group) == att.group
  }

  /** `att` was tried and failed: its failure counted, and noted. */
  ghost predicate FailedAgain(s: State, t: State, id: Id, att: Record, a: Answers) {
    Untouched(t, id, Bumped(att, a.now)) && NotesFailure(NewOwn(s, t, id), id, att, a)
  }

  ghost predicate Tried(s: State, t: State, id: Id, att: Record, a: Answers) {
    FailedAgain(s, t, id, att, a) || Back(s, t, id, att, a)
  }

  /** What a tick makes of one record: live ones and those backing off are left alone, the rest tried or given up. */
  ghost predicate Attended(s: State, t: State, id: Id, att: Record, live: map<Port, string>, a: Answers) {
    if IsLive(att, live) || ShouldSkip(att, a.now) then Untouched(t, id, att) && NewOwn(s, t, id) == []
    else if att.autoFailover then Tried(s, t, id, att, a)
    else id !in t.attachments.entries && NewOwn(s, t, id) == []
  }

  // ---------------------------------------------------------------- one visit

  lemma VisitFrame(s: State, v: Id, att: Record, live: map<Port, string>, a: Answers, id: Id)
    requires Restorable(s, v, att, a) && id != v && id != a.newId
    ensures Beside(s, Visited(s, v, att, live, a), id)
  {
    if !IsLive(att, live) && !ShouldSkip(att, a.now) {
      var (t, r) := Restore(s, v, att, a);
      RestoreKeeps(s, v, att, a);
      RestoreNotesEffects(s, v, att, a);
      EffectBeside(s, v, att, a, t, r, id);
    }
  }

  lemma EffectBeside(s: State, v: Id, att: Record, a: Answers, t: State, r: Restored, id: Id)
    requires RestoreEffect(s, v, att, a, t, r) && RestoreNotes(s, v, att, a, t, r) && id != v && id != a.newId
    ensures Beside(s, t, id)
  {
    NotesBeside(s.trace, t.trace, id);
  }

  lemma {:induction false} NotesBeside(before: seq<Effect>, after: seq<Effect>, id: Id)
    requires before <= after && forall k :: |before| <= k < |after| ==> !Concerns(after[k], id)
    ensures Own(after, id) == Own(before, id)
    decreases |after|
  {
    if |before| < |after| {
      NotesBeside(before, after[..|after| - 1], id);
    } else {
      assert before == after;
    }
  }

  /** A visit attends to its own record. */
  lemma VisitAttends(s: State, id: Id, att: Record, live: map<Port, string>, a: Answers)
    requires Restorable(s, id, att, a)
    ensures Attended(s, Visited(s, id, att, live, a), id, att, live, a)
    ensures Visited(s, id, att, live, a).used <= s.used + {a.newId}
  {
    if !IsLive(att, live) && !ShouldSkip(att, a.now) {
      var (t, r) := Restore(s, id, att, a);
      RestoreKeeps(s, id, att, a);
      RestoreNotesEffects(s, id, att, a);
      UnusedIsAbsent(s, a.newId);
      match r
      case GaveUp =>
      case Failed => FailureIsNoted(s, id, att, a, t);
      case Back => BackIsNoted(s, id, att, a, t);
    }
  }

  lemma FailureIsNoted(s: State, id: Id, att: Record, a: Answers, t: State)
    requires RestoreEffect(s, id, att, a, t, Failed) && RestoreNotes(s, id, att, a, t, Failed)
    ensures FailedAgain(s, t, id, att, a)
  {
    var failed := AttemptFailed(id, a.now);
    OwnSnoc(s.trace, failed, id);
    if |t.trace| == |s.trace| + 2 {
      var ask := t.trace[|s.trace| + 1];
      OwnSnoc(s.trace + [failed], ask, id);
      assert t.trace == s.trace + [failed] + [ask];
    } else {
      assert t.trace == s.trace + [failed];
    }
  }

  lemma BackIsNoted(s: State, id: Id, att: Record, a: Answers, t: State)
    requires Restorable(s, id, att, a) && a.newId !in s.attachments.entries
    requires RestoreEffect(s, id, att, a, t, Restored.Back) && RestoreNotes(s, id, att, a, t, Restored.Back)
    ensures Back(s, t, id, att, a)
  {
    var e := t.trace[|s.trace|];
    assert t.trace == s.trace + [e];
    OwnSnoc(s.trace, e, id);
    OwnSnoc(s.trace, e, a.newId);
    if att.group.Some? { assert BackUnder(s, t, att, a.newId); }
  }

  // ------------------------------------------------------------------ a tick

  ghost predicate TickPre(s: State, snap: Dict<Record>, from: nat, answers: Id -> Answers) {
    && snap.Valid() && from <= |snap.order| && Sound(s) && Pending(s, snap, from)
    && TickFresh(s, snap, from, answers)
  }

  lemma TickPreStep(s: State, snap: Dict<Record>, from: nat, live: map<Port, string>, answers: Id -> Answers)
    requires TickPre(s, snap, from, answers) && from < |snap.order|
    ensures
      var id := snap.order[from];
      TickPre(Visited(s, id, snap.entries[id], live, answers(id)), snap, from + 1, answers)
  {
    VisitPending(s, snap, from, live, answers);
  }

  /** Neither visited nor generated by the visits from `from` up to `to`. */
  ghost predicate Spared(snap: Dict<Record>, from: nat, to: nat, answers: Id -> Answers, id: Id) {
    forall k :: from <= k < to && k < |snap.order| ==> snap.order[k] != id && answers(snap.order[k]).newId != id
  }

  lemma BesideTransitive(s: State, t: State, u: State, id: Id)
    requires Beside(s, t, id) && Beside(t, u, id)
    ensures Beside(s, u, id)
  {
  }

  /** The rest of a tick goes on beside an attachment that it neither visits nor generates. */
  lemma {:induction false} TickFrame(
      s: State, snap: Dict<Record>, from: nat, live: map<Port, string>, answers: Id -> Answers, id: Id)
    requires TickPre(s, snap, from, answers) && Spared(snap, from, |snap.order|, answers, id)
    ensures Beside(s, TickFrom(s, snap, from, live, answers), id)
    decreases |snap.order| - from
  {
    if from < |snap.order| {
      var v := snap.order[from];
      var t := Visited(s, v, snap.entries[v], live, answers(v));
      TickPreStep(s, snap, from, live, answers);
      VisitFrame(s, v, snap.entries[v], live, answers(v), id);
      TickFrame(t, snap, from + 1, live, answers, id);
      TickUnfolds(s, snap, from, live, answers, t);
      BesideTransitive(s, t, TickFrom(t, snap, from + 1, live, answers), id);
    }
  }

  /** Stepping from `from` to `i` keeps what each step keeps. */
  lemma Advances<S>(s: S, from: nat, i: nat, pre: (S, nat) -> bool, next: (S, nat) -> S, end: (S, nat) -> S) returns (t: S)
    requires from <= i && pre(s, from)
    requires forall u, k: nat :: k < i && pre(u, k) ==> pre(next(u, k), k + 1) && end(next(u, k), k + 1) == end(u, k)
    ensures pre(t, i) && end(t, i) == end(s, from)
  {
    t := s;
    for k := from to i
      invariant pre(t, k) && end(t, k) == end(s, from)
    {
      t := next(t, k);
    }
  }

  ghost function PreAt(snap: Dict<Record>, answers: Id -> Answers, s: State, ids: set<Id>): (State, nat) -> bool {
    (u: State, k: nat) => TickPre(u, snap, k, answers) && AllBeside(s, u, ids)
  }

  ghost function EndAt(snap: Dict<Record>, live: map<Port, string>, answers: Id -> Answers): (State, nat) -> State
    requires snap.Valid()
  {
    (u: State, k: nat) => if k <= |snap.order| then TickFrom(u, snap, k, live, answers) else u
  }

  ghost function NextAt(snap: Dict<Record>, live: map<Port, string>, answers: Id -> Answers): (State, nat) -> State
    requires snap.Valid()
  {
    (u: State, k: nat) => if k < |snap.order| then Visited(u, snap.order[k], snap.entries[snap.order[k]], live, answers(snap.order[k])) else u
  }

  lemma VisitBesideAll(s: State, u: State, snap: Dict<Record>, k: nat, live: map<Port, string>, answers: Id -> Answers, ids: set<Id>)
    requires TickPre(u, snap, k, answers) && k < |snap.order| && AllBeside(s, u, ids)
    requires snap.order[k] !in ids && answers(snap.order[k]).newId !in ids
    ensures AllBeside(s, Visited(u, snap.order[k], snap.entries[snap.order[k]], live, answers(snap.order[k])), ids)
  {
    var v := snap.order[k];
    var t := Visited(u, v, snap.entries[v], live, answers(v));
    forall id | id in ids
      ensures Beside(s, t, id)
    {
      VisitFrame(u, v, snap.entries[v], live, answers(v), id);
      BesideTransitive(s, u, t, id);
    }
  }

  lemma AdvancesOnce(u: State, snap: Dict<Record>, k: nat, live: map<Port, string>, answers: Id -> Answers, s: State, ids: set<Id>)
    requires PreAt(snap, answers, s, ids)(u, k) && k < |snap.order|
    requires snap.order[k] !in ids && answers(snap.order[k]).newId !in ids
    ensures
      var next := NextAt(snap, live, answers)(u, k);
      && PreAt(snap, answers, s, ids)(next, k + 1)
      && EndAt(snap, live, answers)(next, k + 1) == EndAt(snap, live, answers)(u, k)
  {
    TickPreStep(u, snap, k, live, answers);
    VisitBesideAll(s, u, snap, k, live, answers, ids);
    TickUnfolds(u, snap, k, live, answers, NextAt(snap, live, answers)(u, k));
  }

  lemma EachAdvances(snap: Dict<Record>, live: map<Port, string>, answers: Id -> Answers, s: State, ids: set<Id>, i: nat)
    requires snap.Valid() && i <= |snap.order| && forall id :: id in ids ==> Spared(snap, 0, i, answers, id)
    ensures
      var pre, next, end := PreAt(snap, answers, s, ids), NextAt(snap, live, answers), EndAt(snap, live, answers);
      forall u, k: nat :: k < i && pre(u, k) ==> pre(next(u, k), k + 1) && end(next(u, k), k + 1) == end(u, k)
  {
    var pre, next, end := PreAt(snap, answers, s, ids), NextAt(snap, live, answers), EndAt(snap, live, answers);
    forall u, k: nat | k < i && pre(u, k)
      ensures pre(next(u, k), k + 1) && end(next(u, k), k + 1) == end(u, k)
    {
      assert snap.order[k] !in ids && answers(snap.order[k]).newId !in ids;
      AdvancesOnce(u, snap, k, live, answers, s, ids);
    }
  }

  /** The tick when it has reached entry `i`, which it has not concerned so far. */
  lemma TickReaches(s: State, snap: Dict<Record>, live: map<Port, string>, answers: Id -> Answers, i: nat, ids: set<Id>)
    returns (t: State)
    requires snap.Valid() && PreAt(snap, answers, s, ids)(s, 0) && i < |snap.order|
    requires forall id :: id in ids ==> Spared(snap, 0, i, answers, id)
    ensures PreAt(snap, answers, s, ids)(t, i) && EndAt(snap, live, answers)(t, i) == EndAt(snap, live, answers)(s, 0)
  {
    EachAdvances(snap, live, answers, s, ids, i);
    t := Advances(s, 0, i, PreAt(snap, answers, s, ids), NextAt(snap, live, answers), EndAt(snap, live, answers));
  }

  /** Neither the id of entry `i` nor the one its visit may generate is touched by the other visits. */
  ghost predicate OnlyOwnVisit(snap: Dict<Record>, i: nat, answers: Id -> Answers, id: Id) {
    Spared(snap, 0, i, answers, id) && Spared(snap, i + 1, |snap.order|, answers, id)
  }

  lemma OthersSpare(s: State, answers: Id -> Answers, i: nat)
    requires Sound(s) && TickFresh(s, s.attachments, 0, answers) && i < |s.attachments.order|
    ensures OnlyOwnVisit(s.attachments, i, answers, s.attachments.order[i])
    ensures OnlyOwnVisit(s.attachments, i, answers, answers(s.attachments.order[i]).newId)
  {
    var d := s.attachments;
    forall k | 0 <= k < |d.order| && k != i
      ensures d.order[k] != d.order[i] && d.order[k] != answers(d.order[i]).newId
      ensures answers(d.order[k]).newId != d.order[i] && answers(d.order[k]).newId != answers(d.order[i]).newId
    {
      assert d.order[k] in d.entries && d.order[i] in d.entries;
      assert d.order[k] in s.used && d.order[i] in s.used;
    }
  }

  /**
   * Within a tick, a record of its snapshot is visited once, as it was read, in a state `u` that nothing before has
   * brought out of line with the start where this record is concerned; and nothing after the visit concerns it.
   */
  lemma TickVisits(s: State, live: map<Port, string>, answers: Id -> Answers, id: Id) returns (u: State)
    requires Sound(s) && TickFresh(s, s.attachments, 0, answers) && id in s.attachments.entries
    ensures Restorable(u, id, s.attachments.entries[id], answers(id))
    ensures Beside(s, u, id) && Beside(s, u, answers(id).newId)
    ensures
      var v := Visited(u, id, s.attachments.entries[id], live, answers(id));
      Beside(v, Ticked(s, live, answers), id) && Beside(v, Ticked(s, live, answers), answers(id).newId)
  {
    var d := s.attachments;
    assert id in d.order;
    var i :| 0 <= i < |d.order| && d.order[i] == id;
    OthersSpare(s, answers, i);
    StartsBeside(s, {id, answers(id).newId});
    u := TickReaches(s, d, live, answers, i, {id, answers(id).newId});
    AfterVisit(u, d, i, live, answers);
  }

  lemma StartsBeside(s: State, ids: set<Id>)
    ensures AllBeside(s, s, ids)
  {
  }

  lemma AfterVisit(u: State, snap: Dict<Record>, i: nat, live: map<Port, string>, answers: Id -> Answers)
    requires TickPre(u, snap, i, answers) && i < |snap.order|
    requires OnlyOwnVisit(snap, i, answers, snap.order[i]) && OnlyOwnVisit(snap, i, answers, answers(snap.order[i]).newId)
    ensures
      var id := snap.order[i];
      var v := Visited(u, id, snap.entries[id], live, answers(id));
      var end := TickFrom(u, snap, i, live, answers);
      Restorable(u, id, snap.entries[id], answers(id)) && Beside(v, end, id) && Beside(v, end, answers(id).newId)
  {
    var id := snap.order[i];
    var v := Visited(u, id, snap.entries[id], live, answers(id));
    TickPreStep(u, snap, i, live, answers);
    TickUnfolds(u, snap, i, live, answers, v);
    TickFrame(v, snap, i + 1, live, answers, id);
    TickFrame(v, snap, i + 1, live, answers, answers(id).newId);
  }

  /** What is true of the visit is true of the tick. */
  lemma AttendedAround(
      s: State, u: State, v: State, end: State, id: Id, att: Record, live: map<Port, string>, a: Answers)
    requires Attended(u, v, id, att, live, a) && a.newId !in s.used && s.used <= u.used && v.used <= u.used + {a.newId}
    requires Beside(s, u, id) && Beside(s, u, a.newId) && Beside(v, end, id) && Beside(v, end, a.newId)
    requires forall j :: j in v.attachments.entries ==> j in v.used
    ensures Attended(s, end, id, att, live, a)
  {
    if Back(u, v, id, att, a) && att.group.Some? && !IsLive(att, live) && !ShouldSkip(att, a.now) && att.autoFailover {
      var j :| j in v.attachments.entries && BackUnder(u, v, att, j);
      assert j == a.newId;
      assert BackUnder(s, end, att, a.newId);
    }
  }

  /** Every record in the store at the start of a tick is attended to by it. */
  lemma TickAttendsToAll(s: State, live: map<Port, string>, answers: Id -> Answers, id: Id)
    requires Sound(s) && TickFresh(s, s.attachments, 0, answers) && id in s.attachments.entries
    ensures Attended(s, Ticked(s, live, answers), id, s.attachments.entries[id], live, answers(id))
  {
    var att, a := s.attachments.entries[id], answers(id);
    var u := TickVisits(s, live, answers, id);
    var v := Visited(u, id, att, live, a);
    VisitAttends(u, id, att, live, a);
    VisitKeeps(u, id, att, live, a);
    assert a.newId !in s.used by { assert id in s.attachments.order; }
    AttendedAround(s, u, v, Ticked(s, live, answers), id, att, live, a);
  }

  // ---------------------------------------------------------- schedules of ticks

  datatype Tick = Tick(live: map<Port, string>, answers: Id -> Answers)

  ghost function AfterTicks(s: State, ticks: seq<Tick>): State {
    if ticks == [] then s
    else
      var before := AfterTicks(s, ticks[..|ticks| - 1]);
      if before.attachments.Valid() then Ticked(before, ticks[|ticks| - 1].live, ticks[|ticks| - 1].answers) else before
  }

  ghost predicate TicksFresh(s: State, ticks: seq<Tick>) {
    forall k :: 0 <= k < |ticks| ==>
      var before := AfterTicks(s, ticks[..k]);
      before.attachments.Valid() && TickFresh(before, before.attachments, 0, ticks[k].answers)
  }

  /** When each tick of the schedule looks at record `id`. */
  ghost function Times(ticks: seq<Tick>, id: Id): seq<int> {
    seq(|ticks|, k requires 0 <= k < |ticks| => ticks[k].answers(id).now)
  }

  lemma NextTick(s: State, ticks: seq<Tick>, k: nat)
    requires TicksFresh(s, ticks) && k < |ticks|
    ensures
      var before := AfterTicks(s, ticks[..k]);
      && before.attachments.Valid() && TickFresh(before, before.attachments, 0, ticks[k].answers)
      && AfterTicks(s, ticks[..k + 1]) == Ticked(before, ticks[k].live, ticks[k].answers)
  {
    assert ticks[..k + 1][..k] == ticks[..k];
  }

  lemma TicksKeepSound(s: State, ticks: seq<Tick>, k: nat)
    requires Sound(s) && TicksFresh(s, ticks) && k <= |ticks|
    ensures Sound(AfterTicks(s, ticks[..k]))
  {
    assert ticks[..0] == [];
    for j := 0 to k
      invariant Sound(AfterTicks(s, ticks[..j]))
    {
      NextIsSound(s, ticks, j);
    }
  }

  lemma NextIsSound(s: State, ticks: seq<Tick>, k: nat)
    requires TicksFresh(s, ticks) && k < |ticks| && Sound(AfterTicks(s, ticks[..k]))
    ensures Sound(AfterTicks(s, ticks[..k + 1]))
  {
    NextTick(s, ticks, k);
    WholeTickConservesKeys(AfterTicks(s, ticks[..k]), ticks[k].live, ticks[k].answers);
  }

  lemma AttendedAtTick(s: State, ticks: seq<Tick>, id: Id, att: Record, k: nat)
    requires Sound(s) && TicksFresh(s, ticks) && k < |ticks| && Untouched(AfterTicks(s, ticks[..k]), id, att)
    ensures Attended(AfterTicks(s, ticks[..k]), AfterTicks(s, ticks[..k + 1]), id, att, ticks[k].live, ticks[k].answers(id))
  {
    TicksKeepSound(s, ticks, k);
    NextTick(s, ticks, k);
    TickAttendsToAll(AfterTicks(s, ticks[..k]), ticks[k].live, ticks[k].answers, id);
  }

  /** While every visit is skipped the record stays as it was. */
  lemma SkippedTicks(s: State, ticks: seq<Tick>, id: Id, att: Record, k: nat)
    requires Sound(s) && TicksFresh(s, ticks) && Untouched(s, id, att) && k <= |ticks|
    requires forall j :: 0 <= j < k ==> ShouldSkip(att, Times(ticks, id)[j])
    ensures Untouched(AfterTicks(s, ticks[..k]), id, att)
  {
    for j := 0 to k
      invariant Untouched(AfterTicks(s, ticks[..j]), id, att)
    {
      assert ShouldSkip(att, Times(ticks, id)[j]);
      AttendedAtTick(s, ticks, id, att, j);
    }
  }

  /**
   * On any schedule of ticks that look at a dead record with auto-failover no further apart than `interval`,
   * tick `i` tries it again, within 1800 seconds and one interval of its last failure. Direct or group.
   */
  lemma NoneAbandoned(s: State, ticks: seq<Tick>, id: Id, interval: int) returns (i: nat)
    requires Sound(s) && TicksFresh(s, ticks) && id in s.attachments.entries
    requires s.attachments.entries[id].autoFailover && s.attachments.entries[id].lastFailure.Some?
    requires forall k :: 0 <= k < |ticks| ==> !IsLive(s.attachments.entries[id], ticks[k].live)
    requires Paced(Times(ticks, id), s.attachments.entries[id].lastFailure.value, interval)
    requires |ticks| > 0 && Times(ticks, id)[|ticks| - 1] >= s.attachments.entries[id].lastFailure.value + 1800
    ensures i < |ticks|
    ensures
      var att, at := s.attachments.entries[id], Times(ticks, id)[i];
      && at <= att.lastFailure.value + 1800 + interval
      && Untouched(AfterTicks(s, ticks[..i]), id, att)
      && Tried(AfterTicks(s, ticks[..i]), AfterTicks(s, ticks[..i + 1]), id, att, ticks[i].answers(id))
  {
    var att := s.attachments.entries[id];
    i := RetriedInTime(att, Times(ticks, id), interval);
    SkippedTicks(s, ticks, id, att, i);
    AttendedAtTick(s, ticks, id, att, i);
  }

  // ------------------------------------------------------- what failover keeps

  /** Who the attachment is and how it is set up. */
  ghost predicate SameSetup(r: Record, e: Record) {
    && e.server == r.server && e.serial == r.serial && e.title == r.title && e.group == r.group
    && e.autoFailover == r.autoFailover && e.autoRebind == r.autoRebind && e.actions == r.actions
  }

  lemma AttendedKeepsSetup(s: State, t: State, id: Id, att: Record, live: map<Port, string>, a: Answers)
    requires Attended(s, t, id, att, live, a) && att.autoFailover && att.group.None?
    ensures id in t.attachments.entries && SameSetup(att, t.attachments.entries[id])
  {
  }

  /** No tick removes a direct attachment with auto-failover, nor changes its server, serial or options. */
  lemma {:induction false} FailoverRecordStays(s: State, ticks: seq<Tick>, id: Id, k: nat)
    requires Sound(s) && TicksFresh(s, ticks) && k <= |ticks| && id in s.attachments.entries
    requires s.attachments.entries[id].autoFailover && s.attachments.entries[id].group.None?
    ensures
      var t := AfterTicks(s, ticks[..k]);
      id in t.attachments.entries && SameSetup(s.attachments.entries[id], t.attachments.entries[id])
  {
    if k > 0 {
      FailoverRecordStays(s, ticks, id, k - 1);
      var before := AfterTicks(s, ticks[..k - 1]);
      AttendedAtTick(s, ticks, id, before.attachments.entries[id], k - 1);
      AttendedKeepsSetup(before, AfterTicks(s, ticks[..k]), id, before.attachments.entries[id], ticks[k - 1].live, ticks[k - 1].answers(id));
    }
  }

  // -------------------------------------------------- a record that keeps failing

  /** Tick `k` does not bring the attachment back. */
  ghost predicate StillDown(s: State, ticks: seq<Tick>, id: Id, k: nat)
    requires k < |ticks|
  {
    var before, after := AfterTicks(s, ticks[..k]), AfterTicks(s, ticks[..k + 1]);
    id in before.attachments.entries && !Back(before, after, id, before.attachments.entries[id], ticks[k].answers(id))
  }

  lemma FailingVisit(r: Record, times: seq<int>, k: nat)
    requires k < |times|
    ensures
      var before := AfterVisits(r, times[..k]);
      && AfterVisits(r, times[..k + 1]) == (if ShouldSkip(before, times[k]) then before else Bumped(before, times[k]))
      && before.port == r.port && before.local == r.local && before.autoFailover == r.autoFailover
  {
    assert times[..k + 1][..k] == times[..k];
    VisitsKeepIdentity(r, times[..k]);
  }

  lemma {:induction false} VisitsKeepIdentity(r: Record, times: seq<int>)
    ensures
      var e := AfterVisits(r, times);
      e.port == r.port && e.local == r.local && e.autoFailover == r.autoFailover
  {
    if times != [] { VisitsKeepIdentity(r, times[..|times| - 1]); }
  }

  /** Over ticks none of which brings it back, a dead record goes through exactly the failing visits of `AfterVisits`. */
  lemma TicksAreFailingVisits(s: State, ticks: seq<Tick>, id: Id, att: Record)
    requires Sound(s) && TicksFresh(s, ticks) && Untouched(s, id, att) && att.autoFailover
    requires forall k :: 0 <= k < |ticks| ==> !IsLive(att, ticks[k].live) && StillDown(s, ticks, id, k)
    ensures Untouched(AfterTicks(s, ticks), id, AfterVisits(att, Times(ticks, id)))
  {
    var times := Times(ticks, id);
    assert ticks[..0] == [] && times[..0] == [];
    for k := 0 to |ticks|
      invariant Untouched(AfterTicks(s, ticks[..k]), id, AfterVisits(att, times[..k]))
    {
      var before := AfterVisits(att, times[..k]);
      FailingVisit(att, times, k);
      AttendedAtTick(s, ticks, id, before, k);
      assert StillDown(s, ticks, id, k);
    }
    assert ticks[..|ticks|] == ticks && times[..|ticks|] == times;
  }

  /** So over any such schedule the n-th failure in a row comes at least `LeastSpan(n)` seconds after the third. */
  lemma TicksSpreadFailuresOut(s: State, ticks: seq<Tick>, id: Id, att: Record)
    requires Sound(s) && TicksFresh(s, ticks) && Untouched(s, id, att) && att.autoFailover
    requires forall k :: 0 <= k < |ticks| ==> !IsLive(att, ticks[k].live) && StillDown(s, ticks, id, k)
    requires att.failures == THRESHOLD
    ensures id in AfterTicks(s, ticks).attachments.entries
    ensures
      var e := AfterTicks(s, ticks).attachments.entries[id];
      e.failures >= THRESHOLD && e.lastFailure.Some? && e.lastFailure.value >= att.lastFailure.value + LeastSpan(e.failures)
  {
    TicksAreFailingVisits(s, ticks, id, att);
    FailuresSpreadOut(att, att.lastFailure.value, Times(ticks, id));
  }
}
