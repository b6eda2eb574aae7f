/** server/app/main.py: the shared-device list, kept bound and moved along when a device changes busid. */
module Shares {
  import opened Text
  import opened Devices

  datatype Book = Book(shared: seq<string>, labels: map<string, string>, known: map<string, string>)

  // ------------------------------------------------------------- one pass

  /** Where a tracked busid has to move: it is gone, and its remembered serial sits at an untracked busid. */
  function Target(b: Book, scan: Scan, busid: string): (t: Option<string>)
    ensures t.Some? ==> t.value !in b.shared && ByBusid(scan, busid).None?
  {
    if ByBusid(scan, busid).Some? || busid !in b.known || b.known[busid] == "" then None
    else match BySerial(scan, b.known[busid])
      case None => None
      case Some(moved) => if moved.busid in b.shared then None else Some(moved.busid)
  }

  datatype Rename = Rename(gone: string, moved: string)

  /** The `renames` dict in insertion order. */
  function RenamesOf(b: Book, scan: Scan, busids: seq<string>): (rs: seq<Rename>)
    ensures forall r :: r in rs ==> r.gone in busids && Target(b, scan, r.gone) == Some(r.moved)
    ensures forall busid :: busid in busids && Target(b, scan, busid).Some? ==> Rename(busid, Target(b, scan, busid).value) in rs
  {
    if busids == [] then []
    else
      var last := busids[|busids| - 1];
      var before, t := RenamesOf(b, scan, busids[..|busids| - 1]), Target(b, scan, last);
      if t.Some? && Rename(last, t.value) !in before then before + [Rename(last, t.value)] else before
  }

  /** `list.remove`: the first occurrence. */
  function RemoveFirst(s: seq<string>, x: string): seq<string> {
    if s == [] then [] else if s[0] == x then s[1..] else [s[0]] + RemoveFirst(s[1..], x)
  }

  function MoveLabel(labels: map<string, string>, r: Rename): map<string, string> {
    if r.gone in labels && r.moved !in labels then (labels - {r.gone})[r.moved := labels[r.gone]] else labels
  }

  function MoveShare(shared: seq<string>, r: Rename): seq<string> {
    var without := RemoveFirst(shared, r.gone);
    if r.moved in without then without else without + [r.moved]
  }

  /** `_apply_renames`, one rename after another. */
  function Applied(b: Book, rs: seq<Rename>): Book {
    if rs == [] then b
    else
      var before := Applied(b, rs[..|rs| - 1]);
      var r := rs[|rs| - 1];
      before.(shared := MoveShare(before.shared, r), labels := MoveLabel(before.labels, r))
  }

  function SerialAt(scan: Scan, busid: string): string {
    match ByBusid(scan, busid) case None => "" case Some(d) => d.serial
  }

  function SerialsIn(scan: Scan): string -> string {
    busid => SerialAt(scan, busid)
  }

  /** The serial snapshot after the final scan: what is read there wins, else what was remembered stays. */
  function Snapshot(known: map<string, string>, shared: seq<string>, serials: string -> string): map<string, string> {
    map busid | busid in shared && (serials(busid) != "" || busid in known) ::
      if serials(busid) != "" then serials(busid) else known[busid]
  }

  /** What a pass leaves stored: the first scan decides the renames, the last one the serials. */
  function Pass(b: Book, first: Scan, final: Scan): Book {
    if b.shared == [] then b
    else
      var moved := Applied(b, RenamesOf(b, first, b.shared));
      moved.(known := Snapshot(b.known, moved.shared, SerialsIn(final)))
  }

  /** The snapshot when only the busids in `done` have been looked at. */
  ghost function SnapshotAfter(known: map<string, string>, shared: seq<string>, done: seq<string>, serials: string -> string)
    : map<string, string>
  {
    map busid | busid in shared && ((busid in done && serials(busid) != "") || busid in known) ::
      if busid in done && serials(busid) != "" then serials(busid) else known[busid]
  }

  lemma SnapshotStep(known: map<string, string>, shared: seq<string>, i: nat, serials: string -> string)
    requires i < |shared|
    ensures
      var before, after := SnapshotAfter(known, shared, shared[..i], serials), SnapshotAfter(known, shared, shared[..i + 1], serials);
      var busid, serial := shared[i], serials(shared[i]);
      if serial != "" && (busid !in before || before[busid] != serial)
      then after == before[busid := serial] && after != known
      else after == before
  {
    var before, after := SnapshotAfter(known, shared, shared[..i], serials), SnapshotAfter(known, shared, shared[..i + 1], serials);
    var busid, serial := shared[i], serials(shared[i]);
    assert shared[..i + 1] == shared[..i] + [busid];
    LookedAt(known, shared, shared[..i], busid, serials);
    if serial != "" && (busid !in before || before[busid] != serial) {
      SnapshotMoved(known, shared, i, serials);
    }
  }

  lemma LookedAt(known: map<string, string>, shared: seq<string>, done: seq<string>, busid: string, serials: string -> string)
    requires busid in shared
    ensures
      var before, after := SnapshotAfter(known, shared, done, serials), SnapshotAfter(known, shared, done + [busid], serials);
      after == if serials(busid) != "" then before[busid := serials(busid)] else before
  {
    assert forall b :: b in done + [busid] <==> b in done || b == busid;
  }

  /** An update of the snapshot is a change from what was stored. */
  lemma SnapshotMoved(known: map<string, string>, shared: seq<string>, i: nat, serials: string -> string)
    requires i < |shared| && serials(shared[i]) != ""
    requires
      var before := SnapshotAfter(known, shared, shared[..i], serials);
      shared[i] !in before || before[shared[i]] != serials(shared[i])
    ensures SnapshotAfter(known, shared, shared[..i + 1], serials) != known
  {
    var before, after := SnapshotAfter(known, shared, shared[..i], serials), SnapshotAfter(known, shared, shared[..i + 1], serials);
    var busid := shared[i];
    assert busid in shared[..i + 1];
    assert busid in after && after[busid] == serials(busid);
    assert busid in known ==> busid in before;
  }

  lemma SnapshotStarts(known: map<string, string>, shared: seq<string>, serials: string -> string)
    ensures SnapshotAfter(known, shared, [], serials) == map b | b in known && b in shared :: known[b]
  {
  }

  lemma SnapshotDone(known: map<string, string>, shared: seq<string>, serials: string -> string)
    ensures SnapshotAfter(known, shared, shared, serials) == Snapshot(known, shared, serials)
  {
  }

  predicate NeedsBind(force: bool, scan: Scan, busid: string) {
    force || !SharedIn(scan, busid)
  }

  function Needing(force: bool, scan: Scan): string -> bool {
    busid => NeedsBind(force, scan, busid)
  }

  /** What a pass stores over `stored` when it has read `before` at its beginning: another handler may come between. */
  function Refreshed(before: map<string, string>, stored: map<string, string>, tracked: seq<string>, final: Scan)
    : map<string, string>
  {
    var snapshot := Snapshot(before, tracked, SerialsIn(final));
    if snapshot != before then snapshot else stored
  }

  /**
   * A share stored while a pass awaits its pushes keeps its serial exactly when the pass has nothing to write, or
   * reads the very same serial there itself.
   */
  lemma ShareDuringPass(b: Book, tracked: seq<string>, busid: string, serial: string, final: Scan)
    requires serial != ""
    ensures
      var after := Refreshed(b.known, WithShare(b, busid, serial).known, tracked, final);
      var snapshot := Snapshot(b.known, tracked, SerialsIn(final));
      busid in after && after[busid] == serial <==> snapshot == b.known || (busid in snapshot && snapshot[busid] == serial)
  {
  }

  /** Such a loss is possible: the pass drops the stale serial of a busid no longer tracked, and with it the new one. */
  lemma ShareDuringPassForgets(b: Book)
    requires b == Book(["1-1"], map[], map["1-1" := "S", "1-9" := "old"])
    ensures WithShare(b, "1-2", "T").known["1-2"] == "T"
    ensures "1-2" !in Refreshed(b.known, WithShare(b, "1-2", "T").known, b.shared, [Device("1-1", "S", SharedIdle, "")])
  {
    var final := [Device("1-1", "S", SharedIdle, "")];
    assert "1-9" !in Snapshot(b.known, b.shared, SerialsIn(final)) && "1-9" in b.known;
  }

  /** `sorted(set(shared) | {busid})`, and the serial if there is one. */
  function WithShare(b: Book, busid: string, serial: string): Book {
    b.(shared := Sorted((set x | x in b.shared) + {busid}), known := if serial != "" then b.known[busid := serial] else b.known)
  }

  function Except(busid: string): string -> bool {
    (b: string) => b != busid
  }

  function WithoutShare(b: Book, busid: string): Book {
    b.(shared := Select(b.shared, Except(busid)))
  }

  lemma {:induction false} SelectKeepsDistinct(s: seq<string>, p: string -> bool)
    ensures NoDuplicates(s) ==> NoDuplicates(Select(s, p))
  {
    if s != [] {
      var init, last := s[..|s| - 1], s[|s| - 1];
      SelectKeepsDistinct(init, p);
      if NoDuplicates(s) {
        assert last !in init;
        assert last !in Select(init, p);
      }
    }
  }

  /** What is selected keeps its order. */
  lemma {:induction false} SelectKeepsOrder(s: seq<string>, p: string -> bool) returns (at: seq<int>)
    ensures ReadOff(s, at, Select(s, p))
  {
    at := [];
    if s != [] {
      var init, last := s[..|s| - 1], s[|s| - 1];
      at := SelectKeepsOrder(init, p);
      ReadOffSnoc(init, at, Select(init, p), last);
      assert s == init + [last];
      if p(last) { at := at + [|init|]; }
    }
  }

  lemma {:induction false} SelectAll(s: seq<string>, p: string -> bool)
    requires forall x :: x in s ==> p(x)
    ensures Select(s, p) == s
  {
    if s != [] {
      SelectAll(s[..|s| - 1], p);
      assert s == s[..|s| - 1] + [s[|s| - 1]];
    }
  }

  /** The busids bound are, whatever the mode, exactly those tracked that are to be bound; all of them when forced. */
  lemma BoundExactly(tracked: seq<string>, force: bool, scan: Scan)
    ensures forall x :: x in Select(tracked, Needing(force, scan)) <==> x in tracked && (force || !ShownShared(scan, x))
    ensures force ==> Select(tracked, Needing(force, scan)) == tracked
  {
    forall x
      ensures Needing(force, scan)(x) <==> force || !ShownShared(scan, x)
    {
      SharedExactlyIfShown(scan, x);
    }
    if force { SelectAll(tracked, Needing(force, scan)); }
  }

  /** A busid is pushed with a serial exactly if it was bound and the listing after that shows it bound, with that serial. */
  lemma {:induction false} PushedExactly(bound: seq<string>, after: string -> Scan, busid: string, serial: string)
    ensures (busid, serial) in Pushes(bound, after) <==>
      busid in bound && ShownShared(after(busid), busid) && exists i :: LastAt(after(busid), busid, i) && serial == after(busid)[i].serial
  {
    if bound != [] {
      var init, last := bound[..|bound| - 1], bound[|bound| - 1];
      PushedExactly(init, after, busid, serial);
      assert bound == init + [last];
      SharedExactlyIfShown(after(last), last);
      LastListed(after(last), last);
    }
  }

  lemma SelectSnoc(s: seq<string>, i: nat, p: string -> bool)
    requires i < |s|
    ensures Select(s[..i + 1], p) == Select(s[..i], p) + if p(s[i]) then [s[i]] else []
  {
    assert s[..i + 1][..i] == s[..i];
  }

  lemma PushesSnoc(bound: seq<string>, busid: string, after: string -> Scan)
    ensures Pushes(bound + [busid], after) ==
      Pushes(bound, after) + if SharedIn(after(busid), busid) then [(busid, SerialAt(after(busid), busid))] else []
  {
    assert (bound + [busid])[..|bound|] == bound;
  }

  function Select(s: seq<string>, p: string -> bool): (r: seq<string>)
    ensures forall x :: x in r <==> x in s && p(x)
  {
    if s == [] then []
    else Select(s[..|s| - 1], p) + (if p(s[|s| - 1]) then [s[|s| - 1]] else [])
  }

  /**
   * The listings one pass takes. `second` is only taken when something was renamed; `after(busid)` follows
   * the bind attempt on that busid.
   */
  datatype Scans = Scans(first: Scan, second: Scan, after: string -> Scan, final: Scan)

  class Server {
    var shared: seq<string>
    var labels: map<string, string>
    var known: map<string, string>
    var configWrites: nat

    function Stored(): Book
      reads this
    {
      Book(shared, labels, known)
    }

    constructor (b: Book)
      ensures Stored() == b && configWrites == 0
    {
      shared, labels, known, configWrites := b.shared, b.labels, b.known, 0;
    }

    method FindRenames(scan: Scan) returns (renames: seq<Rename>)
      ensures renames == RenamesOf(Stored(), scan, shared)
    {
      renames := [];
      for i := 0 to |shared|
        invariant renames == RenamesOf(Stored(), scan, shared[..i])
      {
        var busid := shared[i];
        assert shared[..i + 1][..i] == shared[..i];
        if ByBusid(scan, busid).Some? { continue; }
        if busid in known && known[busid] != "" {
          var moved := BySerial(scan, known[busid]);
          if moved.Some? && moved.value.busid !in shared && Rename(busid, moved.value.busid) !in renames {
            renames := renames + [Rename(busid, moved.value.busid)];
          }
        }
      }
      assert shared[..|shared|] == shared;
    }

    method ApplyRenames(renames: seq<Rename>)
      modifies this`shared, this`labels, this`configWrites
      ensures Stored() == Applied(old(Stored()), renames)
      ensures configWrites == old(configWrites) + 1
    {
      for i := 0 to |renames|
        invariant Stored() == Applied(old(Stored()), renames[..i])
        invariant configWrites == old(configWrites)
      {
        assert renames[..i + 1][..i] == renames[..i];
        var r := renames[i];
        if r.gone in shared {
          shared := RemoveFirst(shared, r.gone);
        } else {
          RemoveAbsent(shared, r.gone);
        }
        if r.moved !in shared {
          shared := shared + [r.moved];
        }
        if r.gone in labels && r.moved !in labels {
          labels := (labels - {r.gone})[r.moved := labels[r.gone]];
        }
      }
      assert renames[..|renames|] == renames;
      configWrites := configWrites + 1;
    }

    /**
     * The refreshed serials of the busids `tracked`, from those read when the pass began (`before`). They are stored,
     * over whatever is stored by then, only when they differ from `before`.
     */
    method RefreshSerials(before: map<string, string>, tracked: seq<string>, final: Scan)
      modifies this`known, this`configWrites
      ensures known == Refreshed(before, old(known), tracked, final)
      ensures configWrites == old(configWrites) + if Snapshot(before, tracked, SerialsIn(final)) != before then 1 else 0
    {
      var serials := SerialsIn(final);
      var snapshot := map b | b in before && b in tracked :: before[b];
      var dirty := snapshot != before;
      SnapshotStarts(before, tracked, serials);
      for i := 0 to |tracked|
        invariant snapshot == SnapshotAfter(before, tracked, tracked[..i], serials)
        invariant dirty <==> snapshot != before
        invariant known == old(known) && configWrites == old(configWrites)
      {
        SnapshotStep(before, tracked, i, serials);
        var busid := tracked[i];
        var serial := serials(busid);
        if serial != "" && (busid !in snapshot || snapshot[busid] != serial) {
          snapshot := snapshot[busid := serial];
          dirty := true;
        }
      }
      assert tracked[..|tracked|] == tracked;
      SnapshotDone(before, tracked, serials);
      if dirty {
        known := snapshot;
        configWrites := configWrites + 1;
      }
    }

    /** The bind loop, over the list as the pass read it. */
    method BindAll(force: bool, tracked: seq<string>, second: Scan, after: string -> Scan)
      returns (bound: seq<string>, notified: seq<(string, string)>)
      ensures bound == Select(tracked, Needing(force, second))
      ensures notified == Pushes(bound, after)
      ensures forall x :: x in bound <==> x in tracked && (force || !ShownShared(second, x))
      ensures force ==> bound == tracked
      ensures !force && (forall x :: x in tracked ==> ShownShared(second, x)) ==> bound == [] && notified == []
      ensures forall x, serial :: (x, serial) in notified <==>
        x in bound && ShownShared(after(x), x) && exists i :: LastAt(after(x), x, i) && serial == after(x)[i].serial
    {
      BoundExactly(tracked, force, second);
      bound, notified := [], [];
      for i := 0 to |tracked|
        invariant bound == Select(tracked[..i], Needing(force, second))
        invariant notified == Pushes(bound, after)
      {
        SelectSnoc(tracked, i, Needing(force, second));
        var busid := tracked[i];
        if !NeedsBind(force, second, busid) { continue; }
        PushesSnoc(bound, busid, after);
        bound := bound + [busid];
        if SharedIn(after(busid), busid) {
          notified := notified + [(busid, SerialAt(after(busid), busid))];
        }
      }
      assert tracked[..|tracked|] == tracked;
      assert |bound| > 0 ==> bound[0] in bound;
      forall x, serial
        ensures (x, serial) in notified <==>
          x in bound && ShownShared(after(x), x) && exists i :: LastAt(after(x), x, i) && serial == after(x)[i].serial
      {
        PushedExactly(bound, after, x, serial);
      }
    }

    /**
     * `_ensure_shared_devices_bound`. `bound` lists the bind attempts in order, `notified` the pushes to
     * clients with the serial they carry.
     */
    method EnsureBound(force: bool, scans: Scans) returns (bound: seq<string>, notified: seq<(string, string)>)
      modifies this
      ensures Stored() == Pass(old(Stored()), scans.first, scans.final)
      ensures
        var renamed := RenamesOf(old(Stored()), scans.first, old(shared)) != [];
        && bound == Select(shared, Needing(force, if renamed then scans.second else scans.first))
        && configWrites == old(configWrites) + (if renamed then 1 else 0) + (if known != old(known) then 1 else 0)
      ensures notified == Pushes(bound, scans.after)
      ensures
        var listing := if RenamesOf(old(Stored()), scans.first, old(shared)) != [] then scans.second else scans.first;
        && (forall x :: x in bound <==> x in shared && (force || !ShownShared(listing, x)))
        && (force ==> bound == shared)
        && (!force && (forall x :: x in shared ==> ShownShared(listing, x)) ==> bound == [] && notified == [])
    {
      bound, notified := [], [];
      if shared == [] { return; }
      var knownSerials := known;
      var renames := FindRenames(scans.first);
      var second := scans.first;
      if renames != [] {
        ApplyRenames(renames);
        second := scans.second;
      }
      var tracked := shared;
      bound, notified := BindAll(force, tracked, second, scans.after);
      RefreshSerials(knownSerials, tracked, scans.final);
    }

    /** `/share` and `/request-share`, once the bind has succeeded. */
    method Share(busid: string, serial: string)
      modifies this
      ensures Stored() == WithShare(old(Stored()), busid, serial) && configWrites == old(configWrites) + 1
      ensures NoDuplicates(shared) && Ascending(shared)
      ensures forall x :: x in shared <==> x in old(shared) || x == busid
      ensures serial != "" ==> busid in known && known[busid] == serial
      ensures forall x :: x != busid || serial == "" ==>
        (x in known <==> x in old(known)) && (x in known ==> known[x] == old(known)[x])
      ensures labels == old(labels)
    {
      SortedIsSorted((set b | b in shared) + {busid});
      shared := Sorted((set b | b in shared) + {busid});
      if serial != "" { known := known[busid := serial]; }
      configWrites := configWrites + 1;
    }

    /** `/unshare`, once the unbind has succeeded; the remembered serial stays until the next pass. */
    method Unshare(busid: string)
      modifies this
      ensures Stored() == WithoutShare(old(Stored()), busid) && configWrites == old(configWrites) + 1
      ensures forall x :: x in shared <==> x in old(shared) && x != busid
      ensures NoDuplicates(old(shared)) ==> NoDuplicates(shared)
      ensures labels == old(labels) && known == old(known)
    {
      ghost var keep := Except(busid);
      var kept := [];
      for i := 0 to |shared|
        invariant kept == Select(shared[..i], keep)
      {
        assert shared[..i + 1][..i] == shared[..i];
        if shared[i] != busid { kept := kept + [shared[i]]; }
      }
      assert shared[..|shared|] == shared;
      SelectKeepsDistinct(shared, keep);
      shared := kept;
      configWrites := configWrites + 1;
    }
  }

  /** The pushes that follow the bind attempts: one for each device the next listing shows as shared. */
  function Pushes(bound: seq<string>, after: string -> Scan): seq<(string, string)> {
    if bound == [] then []
    else
      var last := bound[|bound| - 1];
      Pushes(bound[..|bound| - 1], after) +
      (if SharedIn(after(last), last) then [(last, SerialAt(after(last), last))] else [])
  }

  lemma {:induction false} RemoveAbsent(s: seq<string>, x: string)
    requires x !in s
    ensures RemoveFirst(s, x) == s
  {
    if s != [] { RemoveAbsent(s[1..], x); }
  }
}
